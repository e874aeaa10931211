// Values and collaborators shared by the scan matcher, the cost estimator and
// the scan representation: poses, grid cells, cell values, the occupancy grid,
// the line rasteriser, the set_theta trigonometric cache, and the elementary
// real functions the C++ code takes from <cmath>.

module Common {

  datatype Option<T> = None | Some(value: T)

  type NonPositive = x: real | x <= 0.0
  type NonNegative = x: real | 0.0 <= x

  /** A beam weight: a value in (0, 1]. */
  type UnitWeight = r: real | 0.0 < r <= 1.0 witness 1.0

  /** The floating-point library as uninterpreted real functions. Only two
      facts are assumed, through the types: exp maps a non-positive argument
      into (0, 1] (the scorers never call it on anything else), and sqrt maps
      a non-negative argument to a non-negative result. `round` is std::round
      followed by the conversion to an integer cell coordinate; `subTrunc(k, d)`
      is the compound assignment `k -= d` on an int k: k converted to double,
      d subtracted in floating point, the result truncated back to int. */
  datatype Elementary = Elementary(
    sin: real -> real,
    cos: real -> real,
    exp: NonPositive -> UnitWeight,
    sqrt: NonNegative -> NonNegative,
    atan2: (real, real) -> real,
    round: real -> int,
    subTrunc: (int, real) -> int)

  /** A pose {x, y, theta}; RobotPose() is the zero pose. */
  datatype RobotPose = RobotPose(x: real, y: real, theta: real)

  const ZeroPose := RobotPose(0.0, 0.0, 0.0)

  datatype Point2D = Point2D(x: real, y: real)

  /** The point at distance `r` from (x, y) in the direction whose cosine is
      `c` and whose sine is `s`: where a beam of range `r` ends. */
  function Along(x: real, y: real, r: real, c: real, s: real): Point2D
  {
    Point2D(x + r * c, y + r * s)
  }

  /** DiscretePoint2D: an integer cell coordinate. */
  datatype Cell = Cell(x: int, y: int)

  /** A grid cell value: fullness and confidence, and the obstacle point that
      last made the cell occupied. */
  datatype Occupancy = Occupancy(fullness: real, confidence: real, obstX: real, obstY: real)

  /** One beam as the gmapping code reads it: the public `range` and `angle`
      fields of scan.points[i]. */
  datatype Beam = Beam(range: real, angle: real)

  /** DiscreteLine2D(p0, p1).points(): a non-empty sequence of cells whose last
      cell is p1. How the cells are chosen is not part of this model. */
  type LineFn = f: (Cell, Cell) -> seq<Cell> |
    forall a: Cell, b: Cell :: |f(a, b)| > 0 && f(a, b)[|f(a, b)| - 1] == b
    witness (a: Cell, b: Cell) => [b]

  /** A read-only snapshot of the grid: its written cells, the value every
      other cell reports, and world_to_cell. */
  datatype GridView = GridView(
    cells: map<Cell, Occupancy>,
    unknown: Occupancy,
    toCell: (real, real) -> Cell)
  {
    /** map.cell(c) / map[c]: the stored value, or the default for an unwritten cell. */
    function At(c: Cell): Occupancy
    {
      if c in cells then cells[c] else unknown
    }
  }

  /** The occupancy grid, owned by the caller and written in place by the
      scan registration. */
  class GridMap {
    var cells: map<Cell, Occupancy>
    const unknown: Occupancy
    const worldToCell: (real, real) -> Cell

    constructor (unknown: Occupancy, worldToCell: (real, real) -> Cell)
      ensures cells == map[] && this.unknown == unknown && this.worldToCell == worldToCell
    {
      this.cells := map[];
      this.unknown := unknown;
      this.worldToCell := worldToCell;
    }

    function View(): GridView
      reads this
    {
      GridView(cells, unknown, worldToCell)
    }

    /** cell(c)->set_value(v) */
    method SetValue(c: Cell, v: Occupancy)
      modifies this
      ensures cells == old(cells)[c := v]
    {
      cells := cells[c := v];
    }
  }

  /** The trigonometric cache used through `set_theta` and `cos(double)` /
      `sin(double)` by the scan representation and the cost estimator. Its
      implementation is not part of this model: a lookup depends on the current
      theta and the requested angle through uninterpreted functions. */
  class TrigCache {
    var theta: real
    const rotCos: (real, real) -> real
    const rotSin: (real, real) -> real

    constructor (rotCos: (real, real) -> real, rotSin: (real, real) -> real)
      ensures theta == 0.0 && this.rotCos == rotCos && this.rotSin == rotSin
    {
      theta := 0.0;
      this.rotCos := rotCos;
      this.rotSin := rotSin;
    }

    method SetTheta(t: real)
      modifies this
      ensures theta == t
    {
      theta := t;
    }

    function Cos(angle: real): real
      reads this
    {
      rotCos(theta, angle)
    }

    function Sin(angle: real): real
      reads this
    {
      rotSin(theta, angle)
    }
  }
}
