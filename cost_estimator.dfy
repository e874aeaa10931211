// GmappingCostEstimator::estimate_scan_cost: a second scorer of a scan against
// a read-only grid. Beam indices are kept by a modulo rule on the absolute
// index; each kept beam adds one weight exp(-d / SIGMA_SQ), where d is the
// least squared distance from the beam's endpoint to the obstacle of an
// admissible window cell, or 9 * SIGMA_SQ when no cell is admissible; a beam
// whose endpoint cell equals the cell of the last searched beam reuses that
// beam's weight instead of searching.

module CostEstimation {
  import opened Common
  import opened Window
  import MatchScore

  /** FULLNESS_TH */
  const FullnessTh: real := 0.5
  /** SIGMA_SQ */
  const SigmaSq: real := 0.01

  /** The private settings _scan_margin, _pts_skip_rate and _window_sz. */
  datatype EstimatorConfig = EstimatorConfig(scanMargin: nat, ptsSkipRate: nat, windowSize: int)

  /** The constructor's settings. */
  const DefaultEstimator := EstimatorConfig(0, 3, 1)

  /** Everything the cost depends on: the grid as it is read, the pose, the
      beams, the settings, the lookups of the scan's trigonometric cache (by
      heading and beam angle) and the floating-point library. */
  datatype CostContext = CostContext(
    g: GridView,
    pose: RobotPose,
    scan: seq<Beam>,
    cfg: EstimatorConfig,
    rotCos: (real, real) -> real,
    rotSin: (real, real) -> real,
    m: Elementary)

  /** The skip rule: beam i is handled unless the rate is non-zero and does
      not divide i. */
  predicate Handles(i: int, rate: nat)
  {
    rate == 0 || i % rate == 0
  }

  /** The handled indices of [margin, hi). */
  ghost function HandledSet(margin: nat, hi: int, rate: nat): set<int>
  {
    set i | margin <= i < hi && Handles(i, rate)
  }

  /** Point2D::dist_sq: the squared distance between two points. */
  function DistSq(p: Point2D, q: Point2D): (r: real)
    ensures 0.0 <= r
  {
    (p.x - q.x) * (p.x - q.x) + (p.y - q.y) * (p.y - q.y)
  }

  /** The beam's direction as the cache reports it with theta set to the
      pose's heading. */
  function BeamCos(ctx: CostContext, b: Beam): real
  {
    ctx.rotCos(ctx.pose.theta, b.angle)
  }

  function BeamSin(ctx: CostContext, b: Beam): real
  {
    ctx.rotSin(ctx.pose.theta, b.angle)
  }

  /** sp_world: the beam's endpoint from the pose. */
  function Endpoint(ctx: CostContext, b: Beam): Point2D
  {
    Along(ctx.pose.x, ctx.pose.y, b.range, BeamCos(ctx, b), BeamSin(ctx, b))
  }

  /** sp_coord: the cell of the beam's endpoint. */
  function CellOf(ctx: CostContext, b: Beam): Cell
  {
    var sp := Endpoint(ctx, b);
    ctx.g.toCell(sp.x, sp.y)
  }

  /** (d_free_x, d_free_y): the direction scaled by FREE_CELL_DIST = sqrt(2). */
  function FreeDelta(c: real, s: real, m: Elementary): Point2D
  {
    var freeCellDist := m.sqrt(2.0);
    Point2D(freeCellDist * c, freeCellDist * s)
  }

  /** The occlusion probe of a window cell: each coordinate minus the free
      delta, converted back to an integer by truncation. */
  function FreeCell(test: Cell, dFree: Point2D, m: Elementary): Cell
  {
    Cell(m.subTrunc(test.x, dFree.x), m.subTrunc(test.y, dFree.y))
  }

  /** A window cell is admissible when it is full enough and its occlusion
      probe is not. */
  ghost predicate Admits(g: GridView, center: Cell, dFree: Point2D, m: Elementary, a: int, b: int)
  {
    var test := Cell(center.x + a, center.y + b);
    FullnessTh <= g.At(test).fullness && g.At(FreeCell(test, dFree, m)).fullness < FullnessTh
  }

  /** The squared distance from the endpoint to the obstacle of the window
      cell at offset (a, b), when that cell is admissible. */
  function ObstacleCandidate(g: GridView, center: Cell, dFree: Point2D, sp: Point2D, m: Elementary, a: int, b: int)
    : (r: Option<real>)
    ensures r.Some? <==> Admits(g, center, dFree, m, a, b)
    ensures r.Some? ==> 0.0 <= r.value
  {
    var test := Cell(center.x + a, center.y + b);
    var cell := g.At(test);
    if cell.fullness < FullnessTh then None
    else if FullnessTh <= g.At(FreeCell(test, dFree, m)).fullness then None
    else Some(DistSq(sp, Point2D(cell.obstX, cell.obstY)))
  }

  function ObstacleCandidates(g: GridView, center: Cell, dFree: Point2D, sp: Point2D, m: Elementary)
    : (int, int) -> Option<real>
  {
    (a: int, b: int) => ObstacleCandidate(g, center, dFree, sp, m, a, b)
  }

  /** `cand` gives every offset of the window its candidate. The agreement is
      used only where the candidate of an offset is spelled out. */
  ghost predicate CandidatesOf(cand: (int, int) -> Option<real>, g: GridView, center: Cell, dFree: Point2D, sp: Point2D, m: Elementary)
  {
    forall a, b {:trigger ObstacleCandidate(g, center, dFree, sp, m, a, b)} :: cand(a, b) == ObstacleCandidate(g, center, dFree, sp, m, a, b)
  }

  /** best_dist for a beam: nothing when no cell of the window is
      admissible, otherwise the least squared distance over the admissible
      cells (BestDistSpec). */
  function BestDist(ctx: CostContext, b: Beam): (r: Option<real>)
    ensures r.Some? ==> 0.0 <= r.value
  {
    var cand := ObstacleCandidates(ctx.g, CellOf(ctx, b), FreeDelta(BeamCos(ctx, b), BeamSin(ctx, b), ctx.m), Endpoint(ctx, b), ctx.m);
    WindowMinIsMinimum(cand, ctx.cfg.windowSize);
    WindowMin(cand, ctx.cfg.windowSize, -ctx.cfg.windowSize, -ctx.cfg.windowSize, None)
  }

  /** What the window search finds: nothing exactly when no window cell is
      admissible; otherwise a distance that some admissible cell attains and
      that no admissible cell undercuts. */
  lemma BestDistSpec(ctx: CostContext, b: Beam)
    ensures var r, sp, center := BestDist(ctx, b), Endpoint(ctx, b), CellOf(ctx, b);
      var dFree := FreeDelta(BeamCos(ctx, b), BeamSin(ctx, b), ctx.m);
      var w := ctx.cfg.windowSize;
      && (r.None? <==> forall x, y :: InWindow(w, x, y) ==> !Admits(ctx.g, center, dFree, ctx.m, x, y))
      && (r.Some? ==> exists x, y :: InWindow(w, x, y) && ObstacleCandidate(ctx.g, center, dFree, sp, ctx.m, x, y) == Some(r.value))
      && (forall x, y :: InWindow(w, x, y) && Admits(ctx.g, center, dFree, ctx.m, x, y) ==>
            r.Some? && r.value <= ObstacleCandidate(ctx.g, center, dFree, sp, ctx.m, x, y).value)
  {
    var sp, center := Endpoint(ctx, b), CellOf(ctx, b);
    var dFree := FreeDelta(BeamCos(ctx, b), BeamSin(ctx, b), ctx.m);
    var w := ctx.cfg.windowSize;
    var cand := ObstacleCandidates(ctx.g, center, dFree, sp, ctx.m);
    assert BestDist(ctx, b) == WindowMin(cand, w, -w, -w, None);
    WindowMinIsMinimum(cand, w);
    forall x, y ensures cand(x, y) == ObstacleCandidate(ctx.g, center, dFree, sp, ctx.m, x, y) {}
  }

  /** A searched beam's weight lies in (0, 1]; with no admissible cell the
      distance used is 9 * SIGMA_SQ, so the weight is exactly exp(-9). */
  function BeamWeight(ctx: CostContext, b: Beam): (r: real)
    ensures 0.0 < r <= 1.0
    ensures BestDist(ctx, b).None? ==> r == ctx.m.exp(-9.0)
    ensures BestDist(ctx, b).Some? ==> r == ctx.m.exp(-BestDist(ctx, b).value / SigmaSq)
  {
    var best := BestDist(ctx, b);
    var distSq := if best.Some? then best.value else 9.0 * SigmaSq;
    ctx.m.exp(-distSq / SigmaSq)
  }

  /** The loop state: scan_weight, last_handled_dpoint, last_dpoint_weight
      and, for the statement of the bounds, the number of handled beams. */
  datatype CostState = CostState(weight: real, lastCell: Cell, lastWeight: real, handled: nat)

  /** The state before the first beam: last_dpoint_weight holds the -1
      sentinel, and last_handled_dpoint the default cell. */
  const Initial := CostState(0.0, Cell(0, 0), -1.0, 0)

  /** One iteration of the beam loop at index i. */
  function Visit(ctx: CostContext, s: CostState, i: int): CostState
    requires 0 <= i < |ctx.scan|
  {
    if !Handles(i, ctx.cfg.ptsSkipRate) then s
    else
      var cell := CellOf(ctx, ctx.scan[i]);
      if cell == s.lastCell && s.lastWeight != -1.0 then
        CostState(s.weight + s.lastWeight, s.lastCell, s.lastWeight, s.handled + 1)
      else
        var w := BeamWeight(ctx, ctx.scan[i]);
        CostState(s.weight + w, cell, w, s.handled + 1)
  }

  /** The state after the beams margin .. hi-1. */
  function CostUpTo(ctx: CostContext, hi: int): CostState
    requires ctx.cfg.scanMargin <= hi <= |ctx.scan|
    decreases hi
  {
    if hi == ctx.cfg.scanMargin then Initial else Visit(ctx, CostUpTo(ctx, hi - 1), hi - 1)
  }

  /** estimate_scan_cost: the weight over the range [margin, size - margin). */
  function EstimateCost(ctx: CostContext): real
    requires ctx.cfg.scanMargin <= |ctx.scan|
  {
    CostUpTo(ctx, MatchScore.BeamsEnd(|ctx.scan|, ctx.cfg.scanMargin)).weight
  }

  /** Every handled beam adds a weight in (0, 1]: the cost is non-negative
      and at most the number of handled beams; the -1 sentinel is in place
      exactly until the first handled beam, and afterwards the remembered
      weight is a genuine one. */
  lemma {:induction false} CostBounds(ctx: CostContext, hi: int)
    requires ctx.cfg.scanMargin <= hi <= |ctx.scan|
    ensures var s := CostUpTo(ctx, hi);
      && 0.0 <= s.weight <= s.handled as real
      && s.handled <= hi - ctx.cfg.scanMargin
      && (s.handled == 0 <==> s.lastWeight == -1.0)
      && (s.handled > 0 ==> 0.0 < s.lastWeight <= 1.0 && 0.0 < s.weight)
    decreases hi
  {
    if hi > ctx.cfg.scanMargin {
      CostBounds(ctx, hi - 1);
    }
  }

  /** The handled beams are exactly the indices the skip rule keeps: the
      multiples of the rate, or every index when the rate is 0. */
  lemma {:induction false} HandledIndices(ctx: CostContext, hi: int)
    requires ctx.cfg.scanMargin <= hi <= |ctx.scan|
    ensures CostUpTo(ctx, hi).handled == |HandledSet(ctx.cfg.scanMargin, hi, ctx.cfg.ptsSkipRate)|
    ensures ctx.cfg.ptsSkipRate == 0 ==> CostUpTo(ctx, hi).handled == hi - ctx.cfg.scanMargin
    decreases hi
  {
    var margin, rate := ctx.cfg.scanMargin, ctx.cfg.ptsSkipRate;
    if hi == margin {
      assert HandledSet(margin, hi, rate) == {};
    } else {
      HandledIndices(ctx, hi - 1);
      var before := HandledSet(margin, hi - 1, rate);
      if Handles(hi - 1, rate) {
        assert HandledSet(margin, hi, rate) == before + {hi - 1};
      } else {
        assert HandledSet(margin, hi, rate) == before;
      }
    }
  }

  /** Beam j, before hi, is the last beam that was searched: it is handled,
      `s` remembers its cell and its own weight, and every beam handled after
      it and before hi ended in that same cell, so it reused the memo. */
  ghost predicate LastSearched(ctx: CostContext, s: CostState, j: int, hi: int)
    requires hi <= |ctx.scan|
  {
    && ctx.cfg.scanMargin <= j < hi && Handles(j, ctx.cfg.ptsSkipRate)
    && s.lastCell == CellOf(ctx, ctx.scan[j]) && s.lastWeight == BeamWeight(ctx, ctx.scan[j])
    && forall k :: j < k < hi && Handles(k, ctx.cfg.ptsSkipRate) ==> CellOf(ctx, ctx.scan[k]) == s.lastCell
  }

  /** Once a beam is handled, the remembered cell and weight are those of the
      last beam that was searched. */
  lemma {:induction false} MemoSource(ctx: CostContext, hi: int)
    requires ctx.cfg.scanMargin <= hi <= |ctx.scan|
    ensures var s := CostUpTo(ctx, hi);
      s.handled > 0 ==> exists j :: LastSearched(ctx, s, j, hi)
    decreases hi
  {
    if hi > ctx.cfg.scanMargin {
      var i, rate := hi - 1, ctx.cfg.ptsSkipRate;
      MemoSource(ctx, i);
      CostBounds(ctx, i);
      var before, s := CostUpTo(ctx, i), CostUpTo(ctx, hi);
      if !Handles(i, rate) {
        if s.handled > 0 {
          var j :| LastSearched(ctx, before, j, i);
          assert LastSearched(ctx, s, j, hi);
        }
      } else if CellOf(ctx, ctx.scan[i]) == before.lastCell && before.lastWeight != -1.0 {
        var j :| LastSearched(ctx, before, j, i);
        assert LastSearched(ctx, s, j, hi);
      } else {
        assert LastSearched(ctx, s, i, hi);
      }
    }
  }

  /** What beam i adds: nothing when the skip rule drops it. A handled beam
      whose cell is the remembered one, once a weight is remembered, adds the
      remembered weight again and keeps the memo; any other handled beam is
      searched, adds its own weight and becomes the memo. Either way the
      weight added is that of the last searched beam j in the same cell, with
      every handled beam after j up to i in that cell too. */
  lemma BeamContribution(ctx: CostContext, i: int)
    requires ctx.cfg.scanMargin <= i < |ctx.scan|
    ensures var before, after := CostUpTo(ctx, i), CostUpTo(ctx, i + 1);
      && (!Handles(i, ctx.cfg.ptsSkipRate) ==> after == before)
      && (Handles(i, ctx.cfg.ptsSkipRate) ==> after.handled == before.handled + 1)
      && (Handles(i, ctx.cfg.ptsSkipRate) && CellOf(ctx, ctx.scan[i]) == before.lastCell && before.lastWeight != -1.0 ==>
            after.weight == before.weight + before.lastWeight &&
            after.lastCell == before.lastCell && after.lastWeight == before.lastWeight)
      && (Handles(i, ctx.cfg.ptsSkipRate) && !(CellOf(ctx, ctx.scan[i]) == before.lastCell && before.lastWeight != -1.0) ==>
            after.weight == before.weight + BeamWeight(ctx, ctx.scan[i]) &&
            after.lastCell == CellOf(ctx, ctx.scan[i]) && after.lastWeight == BeamWeight(ctx, ctx.scan[i]))
      && (Handles(i, ctx.cfg.ptsSkipRate) ==>
            exists j :: LastSearched(ctx, after, j, i + 1) && CellOf(ctx, ctx.scan[j]) == CellOf(ctx, ctx.scan[i]) &&
              after.weight == before.weight + BeamWeight(ctx, ctx.scan[j]))
      && (Handles(i, ctx.cfg.ptsSkipRate) && before.handled == 0 ==>
            after.weight == before.weight + BeamWeight(ctx, ctx.scan[i]))
  {
    CostBounds(ctx, i);
    var before, after := CostUpTo(ctx, i), CostUpTo(ctx, i + 1);
    if Handles(i, ctx.cfg.ptsSkipRate) {
      if CellOf(ctx, ctx.scan[i]) == before.lastCell && before.lastWeight != -1.0 {
        MemoSource(ctx, i);
        var j :| LastSearched(ctx, before, j, i);
        assert LastSearched(ctx, after, j, i + 1);
      } else {
        assert LastSearched(ctx, after, i, i + 1);
      }
    }
  }

  /** The whole cost lies between 0 and the number of indices of the range
      that the skip rule keeps. */
  lemma EstimateCostBounds(ctx: CostContext)
    requires ctx.cfg.scanMargin <= |ctx.scan|
    ensures var margin := ctx.cfg.scanMargin;
      0.0 <= EstimateCost(ctx) <= |HandledSet(margin, MatchScore.BeamsEnd(|ctx.scan|, margin), ctx.cfg.ptsSkipRate)| as real
  {
    var hi := MatchScore.BeamsEnd(|ctx.scan|, ctx.cfg.scanMargin);
    CostBounds(ctx, hi);
    HandledIndices(ctx, hi);
  }

  class GmappingCostEstimator {
    const cfg: EstimatorConfig
    const math: Elementary

    constructor (math: Elementary)
      ensures cfg == DefaultEstimator && this.math == math
    {
      cfg := DefaultEstimator;
      this.math := math;
    }

    /** What the cost depends on: the pose, the beams, the cache's tables
        and the grid as it is read. */
    function Context(pose: RobotPose, scan: seq<Beam>, cache: TrigCache, g: GridView): CostContext
    {
      CostContext(g, pose, scan, cfg, cache.rotCos, cache.rotSin, math)
    }

    /** The window loops for one beam, over the candidates `cand` of its
        window: `found` is false exactly when best_dist stays infinite, and
        `bestDist` is otherwise the least squared distance to an admissible
        cell's obstacle, as Window.WindowMin computes them. */
    method SearchWindow(g: GridView, spCoord: Cell, spWorld: Point2D, dFree: Point2D, ghost cand: (int, int) -> Option<real>)
      returns (found: bool, bestDist: real)
      requires CandidatesOf(cand, g, spCoord, dFree, spWorld, math)
      ensures (if found then Some(bestDist) else None) == WindowMin(cand, cfg.windowSize, -cfg.windowSize, -cfg.windowSize, None)
    {
      var w := cfg.windowSize;
      ghost var target := WindowMin(cand, w, -w, -w, None);
      found, bestDist := false, 0.0;
      var dx := -w;
      while dx <= w
        invariant -w <= dx
        invariant WindowMin(cand, w, dx, -w, if found then Some(bestDist) else None) == target
        decreases w + 1 - dx
      {
        var dy := -w;
        while dy <= w
          invariant -w <= dy
          invariant WindowMin(cand, w, dx, dy, if found then Some(bestDist) else None) == target
          decreases w + 1 - dy
        {
          WindowMinStep(cand, w, dx, dy, if found then Some(bestDist) else None);
          assert cand(dx, dy) == ObstacleCandidate(g, spCoord, dFree, spWorld, math, dx, dy);
          var cell := Cell(spCoord.x + dx, spCoord.y + dy);
          var cellValue := g.At(cell);
          if cellValue.fullness < FullnessTh {
            dy := dy + 1;
            continue;
          }
          var freeCellValue := g.At(FreeCell(cell, dFree, math));
          if FullnessTh <= freeCellValue.fullness {
            dy := dy + 1;
            continue;
          }
          var dist := DistSq(spWorld, Point2D(cellValue.obstX, cellValue.obstY));
          if !found || dist < bestDist {
            bestDist := dist;
            found := true;
          }
          dy := dy + 1;
        }
        dx := dx + 1;
      }
    }

    /** The start of the beam loop's body: the cached cosine and sine of the
        beam direction, the endpoint in world coordinates and its cell. */
    method BeamCell(pose: RobotPose, scan: seq<Beam>, i: int, cache: TrigCache, g: GridView)
      returns (c: real, s: real, spWorld: Point2D, spCoord: Cell)
      requires 0 <= i < |scan| && cache.theta == pose.theta
      ensures var ctx, sp := Context(pose, scan, cache, g), scan[i];
        && c == BeamCos(ctx, sp) && s == BeamSin(ctx, sp)
        && spWorld == Endpoint(ctx, sp) && spCoord == CellOf(ctx, sp)
    {
      ghost var ctx := Context(pose, scan, cache, g);
      var sp := scan[i];
      c := cache.Cos(sp.angle);
      s := cache.Sin(sp.angle);
      assert c == BeamCos(ctx, sp);
      assert s == BeamSin(ctx, sp);
      spWorld := Along(pose.x, pose.y, sp.range, c, s);
      assert spWorld == Endpoint(ctx, sp);
      spCoord := g.toCell(spWorld.x, spWorld.y);
    }

    /** The rest of the body for a beam that is searched: its free offset,
        the window search and the weight of the distance found. */
    method WeighBeam(pose: RobotPose, scan: seq<Beam>, i: int, cache: TrigCache, g: GridView,
                     c: real, s: real, spWorld: Point2D, spCoord: Cell)
      returns (weight: real)
      requires 0 <= i < |scan|
      requires var ctx, sp := Context(pose, scan, cache, g), scan[i];
        && c == BeamCos(ctx, sp) && s == BeamSin(ctx, sp)
        && spWorld == Endpoint(ctx, sp) && spCoord == CellOf(ctx, sp)
      ensures weight == BeamWeight(Context(pose, scan, cache, g), scan[i])
    {
      var dFree := FreeDelta(c, s, math);
      var found, bestDist := SearchWindow(g, spCoord, spWorld, dFree, ObstacleCandidates(g, spCoord, dFree, spWorld, math));
      assert (if found then Some(bestDist) else None) == BestDist(Context(pose, scan, cache, g), scan[i]);
      var distSq := if found then bestDist else 9.0 * SigmaSq;
      weight := math.exp(-distSq / SigmaSq);
    }

    /** estimate_scan_cost: the cost that EstimateCost specifies. The grid is
        only read; the only change is the scan cache's theta, set to the
        pose's heading; min_cost plays no part. */
    method EstimateScanCost(pose: RobotPose, scan: seq<Beam>, cache: TrigCache, g: GridView, minCost: real)
      returns (scanWeight: real)
      requires cfg.scanMargin <= |scan|
      modifies cache
      ensures cache.theta == pose.theta
      ensures scanWeight == EstimateCost(Context(pose, scan, cache, g))
    {
      ghost var ctx := Context(pose, scan, cache, g);
      var margin, rate := cfg.scanMargin, cfg.ptsSkipRate;
      scanWeight := 0.0;
      var lastWeight: real := -1.0;
      var lastHandled := Cell(0, 0);
      ghost var handled := 0;
      cache.SetTheta(pose.theta);
      var i := margin;
      while i < |scan| - margin
        invariant margin <= i <= MatchScore.BeamsEnd(|scan|, margin)
        invariant CostUpTo(ctx, i) == CostState(scanWeight, lastHandled, lastWeight, handled)
        modifies {}
      {
        if rate != 0 && i % rate != 0 {
          i := i + 1;
          continue;
        }
        scanWeight, lastHandled, lastWeight := HandleBeam(pose, scan, i, cache, g, scanWeight, lastHandled, lastWeight, handled);
        handled := handled + 1;
        i := i + 1;
      }
    }

    /** The body of the beam loop for a beam the skip rule keeps: the memo
        reuse when its cell is the last handled one, otherwise the search;
        the new scan_weight, last_handled_dpoint and last_dpoint_weight are
        those of one Visit. */
    method HandleBeam(pose: RobotPose, scan: seq<Beam>, i: int, cache: TrigCache, g: GridView,
                      scanWeight: real, lastHandled: Cell, lastWeight: real, ghost handled: nat)
      returns (scanWeight': real, lastHandled': Cell, lastWeight': real)
      requires 0 <= i < |scan| && cache.theta == pose.theta && Handles(i, cfg.ptsSkipRate)
      ensures Visit(Context(pose, scan, cache, g), CostState(scanWeight, lastHandled, lastWeight, handled), i)
        == CostState(scanWeight', lastHandled', lastWeight', handled + 1)
    {
      var c, s, spWorld, spCoord := BeamCell(pose, scan, i, cache, g);
      if spCoord == lastHandled && lastWeight != -1.0 {
        return scanWeight + lastWeight, lastHandled, lastWeight;
      }
      var weight := WeighBeam(pose, scan, i, cache, g, c, s, spWorld, spCoord);
      return scanWeight + weight, spCoord, weight;
    }
  }
}
