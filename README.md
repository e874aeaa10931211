# Scan matching front end of a gmapping-style 2D laser SLAM, in Dafny

This project models three parts of a 2D laser SLAM front end and proves
properties of them.

- **The gmapping `ScanMatcher`** and its `TrigonometricCache`
  (`src/gmapping/scan_matcher.h`).
  - `score` correlates a scan with the occupancy grid. Each beam kept by the
    skip counter looks for the nearest obstacle in a square window around its
    endpoint cell. Cells occluded by a full "free" neighbour are skipped. A
    match adds `exp(-d / sigma)` to the score and one to the likelihood.
  - `optimize` is a hill climb. In each round it tries six single-axis moves.
    It adopts a move only on strict improvement, and halves the steps after a
    round that did not improve.
  - `registerScan` writes every beam's line into the grid. The last write
    wins.
  - `processScan` optimises. It registers the scan only when the refined
    score beats `minRegScore`, or on the first scan.
- **`GmappingCostEstimator::estimate_scan_cost`**
  (`src/gmapping/gmapping_cost_estimator.h`). This is a second scorer.
  - Its skip rule is a modulo rule on the absolute beam index.
  - A beam with no admissible window cell still gets a fallback weight,
    `exp(-9)`.
  - A beam landing in the cell of the last searched beam reuses that beam's
    weight. A `-1` sentinel guards this.
- **`ScanPoint2D` and `LaserScan2D`** (`src/core/sensor_data.h`).
  - A point is a tagged polar/cartesian value. Its accessors convert on
    demand.
  - A scan converts all its points through one shared trigonometric cache.

## Numerics

Floating-point numbers are modelled as reals. The `<cmath>` functions are
uninterpreted functions bundled in `Common.Elementary`. Only two facts are
assumed about them, both carried by the types:

- `exp` maps a non-positive argument into `(0, 1]`;
- `sqrt` maps a non-negative argument to a non-negative value.

`std::round` followed by the conversion to a cell coordinate is the
uninterpreted `round`. The cost estimator's `cell.x -= d_free_x` on an `int`
(convert, subtract in floating point, truncate back) is the uninterpreted
`subTrunc`.

The grid (`Common.GridMap`) is a map from cells to `Occupancy` values plus a
default value for unwritten cells. It is written in place by the registration.
Where the source takes `const GridMap &` (`score`, `optimize`,
`estimate_scan_cost`), the model takes a read-only snapshot of it
(`Common.GridView`).
`world_to_cell` is an uninterpreted function. A `DiscreteLine2D` is a line
function returning a non-empty cell sequence that ends at its second argument.

## Structure

Imperative code is modelled as methods, and each method is proved against a
function:

- `ScanMatcher.Score` against `MatchScore.ScoreOf`;
- `ScanMatcher.Optimize` against `HillClimb.Run`;
- `ScanMatcher.RegisterScan` against `Registration.Registered`;
- `GmappingCostEstimator.EstimateScanCost` against `CostEstimation.EstimateCost`.

The properties the source promises are proved about those functions as lemmas.

`optimize` is proved over an abstract scorer (`HillClimb.Scorer`). The
methods `Score`, `ExploreMoves`, `OptimizeRound`, `Optimize` and `ProcessScan`
take a ghost scorer `sc` and require that it agrees with `MatchScore.ScoreOf`
on every pose (`MatchScore.ScoresAs`). `MatchScore.ScoreFn` is such a scorer
(`MatchScore.ScoreFnAgrees`). The lemma `ScanMatching.OptimizeOutcome` states
what the climb returns for any such scorer.

Some methods are one source function's body cut into parts, so that each part
is proved on its own:

- `score`: `ScoreBeam` (one beam) and `SearchWindow` (the window loops);
- `optimize`: `ExploreMoves` (the move loop), `OptimizeRound` (one pass of
  the outer loop) and `ClimbFrom` (the outer loop);
- `registerScan`: `TraceBeam` (endpoint and line) and `WriteLine` (the writes
  of one beam);
- `estimate_scan_cost`: `HandleBeam` (one kept beam), which uses `BeamCell`,
  `WeighBeam` and `SearchWindow`.

As written, `score` and `registerScan` take each beam's direction from
`cos(angle)` and `sin(angle)` of the beam's own angle. The pose's heading
reaches them only through `getLaserPose`, and only when `laserOffset` is
non-zero. The model keeps this behaviour. With the default zero offset it
proves two consequences:

- turning the pose never changes its score (`MatchScore.ScoreIgnoresHeading`);
- the hill climb never changes the heading (`HillClimb.RunKeepsHeading`,
  `ScanMatching.OptimizeOutcome`).

## Model

| member | source | states |
|---|---|---|
| SensorData.Range | src/core/sensor_data.h:43-49 | the range of a cartesian point is never negative; that a polar point reads back its stored range is stated in StoredFormReadsBack |
| SensorData.StoredFormReadsBack | src/core/sensor_data.h:23-68 | for either tag, the accessors of the stored form (Range and Angle of a polar point, X and Y of a cartesian one) return the constructor's arguments, and IsOccupied returns the flag |
| SensorData.AccessorsAgree | src/core/sensor_data.h:43-67 | the accessors of the form not stored follow from those of the stored form: X and Y of a polar point are Range·cos(Angle) and Range·sin(Angle); Range and Angle of a cartesian point are sqrt(X²+Y²) and atan2(Y, X) |
| SensorData.MakePolar | src/core/sensor_data.h:19-21 | make_polar builds a polar point whose range() and angle() are the arguments, with the given flag |
| SensorData.DefaultPoint | src/core/sensor_data.h:40-41 | the default point is polar, with range 0, angle 0, and occupied |
| SensorData.ToCartesianVia | src/core/sensor_data.h:70-75 | to_cartesian(cache) is cartesian with the same flag, and its x/y are range() times the cache's cos/sin of angle() at the cache's theta |
| SensorData.ToCartesian | src/core/sensor_data.h:88-94 | to_cartesian(d_angle, d_range) is cartesian with the same flag, at (range()+d_range)·cos/sin(angle()+d_angle); to_cartesian(0,0) of a polar point keeps x() and y() |
| SensorData.ToPolar | src/core/sensor_data.h:96-102 | to_polar is polar with the same flag and a non-negative range; to_polar(0,0) of a cartesian point keeps range() and angle() |
| SensorData.MoveOriginTransparent | src/core/sensor_data.h:84-86 | move_origin(dx, dy) of a polar point equals move_origin(dx, dy) of its cartesian conversion: the move does not depend on the stored form |
| SensorData.MoveOriginRotated | src/core/sensor_data.h:77-82 | move_origin(dx, dy, da) is range()·cos/sin(angle()+da) shifted by (dx, dy) |
| SensorData.MoveOriginRotatedFactors | src/core/sensor_data.h:77-94 | the rotating move_origin equals to_cartesian(da, 0) followed by the plain move_origin; with da = 0 a polar point moves as the plain move_origin moves it |
| SensorData.LaserScan2D.ToCartesian | src/core/sensor_data.h:134-144 | the result is a new scan of the same length whose i-th point is the i-th point converted through the shared cache; it shares the same cache object, whose theta is set to the angle; the source scan's points are unchanged |
| TrigonometricTables.TrigonometricCache.constructor | src/gmapping/scan_matcher.h:13-15 | a new cache has empty tables, zero rotation and zero bounds, and is valid |
| TrigonometricTables.TrigonometricCache.Sin | src/gmapping/scan_matcher.h:17-19 | sin(idx) is sinθ·cos(aᵢ) + cosθ·sin(aᵢ) for the idx-th beam angle aᵢ of the tables |
| TrigonometricTables.TrigonometricCache.Cos | src/gmapping/scan_matcher.h:21-23 | cos(idx) is cosθ·cos(aᵢ) − sinθ·sin(aᵢ) for the idx-th beam angle aᵢ of the tables |
| TrigonometricTables.TrigonometricCache.SetTheta | src/gmapping/scan_matcher.h:25-28 | setTheta stores sin/cos of theta and changes nothing else: both tables and the three bounds are unchanged |
| TrigonometricTables.TrigonometricCache.CreateCache | src/gmapping/scan_matcher.h:30-43 | with the last build's arguments the whole cache is unchanged; otherwise the arguments are stored and the tables hold sin/cos of exactly the angles below a_max reached from a_min by repeated additions of a_inc, in order, with equal lengths; the rotation is kept |
| TrigonometricTables.TablesAppend | src/gmapping/scan_matcher.h:40-43 | pushing the sine and cosine of the next angle, when it is below a_max, extends tables that held the earlier angles |
| TrigonometricTables.StepsLeftDecrease | src/gmapping/scan_matcher.h:40 | with a positive increment, each `angle += delta` takes at least one off the non-negative number of steps left before a_max, so the loop ends |
| TrigonometricTables.CreateCacheDiverges | src/gmapping/scan_matcher.h:39-42 | with a non-positive increment and a_min < a_max every angle the table loop reaches stays below a_max, so the loop never terminates |
| MatchScore.BeamsEnd | src/gmapping/scan_matcher.h:222-223 | the beam range [margin, size − margin) ends within the scan and never before its start, and it ends at size − margin whenever 2·margin ≤ size, so every beam in [margin, size − margin) is visited |
| MatchScore.Length | src/gmapping/scan_matcher.h:199-201 | length(x, y) is never negative |
| MatchScore.LaserPose | src/gmapping/scan_matcher.h:187-197 | getLaserPose composes the pose with the offset (rotated position plus heading sum); the zero-offset short cut agrees with the formula and returns the pose itself |
| MatchScore.MatchCandidate | src/gmapping/scan_matcher.h:242-254 | a window cell yields a distance exactly when its free neighbour is below the fullness threshold and the cell is at or above it; that distance is non-negative |
| MatchScore.BeamMatch | src/gmapping/scan_matcher.h:228-256 | the distance a beam finds, when it finds one, is never negative |
| MatchScore.BeamMatchSpec | src/gmapping/scan_matcher.h:238-256 | a beam finds nothing exactly when no window cell qualifies; otherwise it finds a distance that some qualifying window cell attains and that no qualifying cell undercuts |
| MatchScore.SkipCounterStep | src/gmapping/scan_matcher.h:225-226 | one skip-counter update moves the counter from position k to k+1 of the range, and the counter is 0 exactly at the beams kept (every (rate+1)-th one, or all when rate ≤ 0) |
| MatchScore.MatchWeight | src/gmapping/scan_matcher.h:258-262 | a matched beam's weight exp(−d/σ) lies in (0, 1] |
| MatchScore.TallyStep | src/gmapping/scan_matcher.h:225-265 | one more beam leaves the tally unchanged when the skip counter drops it; otherwise it counts one more handled beam, and a match adds its weight and one unit of likelihood |
| MatchScore.TallyBounds | src/gmapping/scan_matcher.h:217-267 | the running score is between 0 and the likelihood, which is at most the number of kept beams, which is at most the number of beams examined |
| MatchScore.HandledCount | src/gmapping/scan_matcher.h:222-226 | the number of beams the skip counter keeps among n examined is n when rate ≤ 0, and n / (rate+1) otherwise |
| MatchScore.TallyIgnoresHeading | src/gmapping/scan_matcher.h:228-234 | the tally at a laser pose depends only on its position, never on its heading |
| MatchScore.ScoreIgnoresHeading | src/gmapping/scan_matcher.h:220-234 | with a zero laser offset, turning the pose leaves its score and likelihood unchanged |
| MatchScore.ScoreBounds | src/gmapping/scan_matcher.h:203-269 | score is between 0 and its likelihood, which is at most the number of kept beams |
| MatchScore.ScoreFnAgrees | src/gmapping/scan_matcher.h:203-269 | proof helper: score, as a function of the pose, is a scorer that agrees with the score of every pose |
| MatchScore.ScorerSpec | src/gmapping/scan_matcher.h:203-269 | through any scorer that agrees with score, every pose's score is between 0 and its likelihood, and with zero offset the heading never changes it |
| Window.WindowMinFrom | src/gmapping/scan_matcher.h:240-256 | the rest of the window search returns nothing only when nothing was found before and no pending cell qualifies; otherwise it returns a minimum that is at most the running best and every pending candidate |
| Window.WindowMinIsMinimum | src/gmapping/scan_matcher.h:238-256 | the window search finds nothing exactly when no window offset has a candidate, and otherwise returns the least candidate, attained by some offset |
| Window.WindowMinStep | src/gmapping/scan_matcher.h:240-256 | visiting one window offset folds its candidate into the running best, strict improvement only, and moves to the next offset of the row |
| HillClimb.Moved | src/gmapping/scan_matcher.h:127-154 | each move changes exactly one of x, y, theta by ±ldelta or ±adelta and keeps the other two |
| HillClimb.TryMovesMaximal | src/gmapping/scan_matcher.h:125-179 | a round's moves never lower the best score so far, and the result scores at least as well as every move tried |
| HillClimb.TryMovesChoice | src/gmapping/scan_matcher.h:172-178 | a round keeps the current pose (the move returned is Done) or adopts the candidate of the returned move, which strictly beats the current pose and every move tried before it; on ties the earlier move in Front…TurnRight order is kept |
| HillClimb.TryMovesScored | src/gmapping/scan_matcher.h:172-178 | whatever a round adopts carries its own pose's score and likelihood |
| HillClimb.TryMovesStill | src/gmapping/scan_matcher.h:174-178 | a round whose moves do not raise the score adopts nothing |
| HillClimb.StartSpec | src/gmapping/scan_matcher.h:103-114 | the initial state carries the initial pose's score, and the loop is always entered, because bestScore = −1 is below any score |
| HillClimb.IterateRuns | src/gmapping/scan_matcher.h:114-181 | proof helper: iterating rounds through any step function that does what a round does gives Run's outcome, or none, for every fuel |
| HillClimb.RoundStep | src/gmapping/scan_matcher.h:114-181 | proof helper: a step function that does what a round does exists |
| HillClimb.RoundUnfold | src/gmapping/scan_matcher.h:115-180 | proof helper: a round is the halving decision followed by the six moves around the current pose |
| HillClimb.RoundSettled | src/gmapping/scan_matcher.h:114-181 | after a round that did not improve, no move at that round's steps beats the pose |
| HillClimb.RoundConsistent | src/gmapping/scan_matcher.h:118-122 | after a round the score and likelihood are those of the pose, and ldelta and adelta are the initial steps times 0.5^iter |
| HillClimb.RoundSpec | src/gmapping/scan_matcher.h:114-181 | a round sets bestScore to the score it started from; the score never drops; the pose changes only on strict improvement; iter grows (and the steps halve) exactly when the previous round did not improve |
| HillClimb.RunSpec | src/gmapping/scan_matcher.h:114-184 | at exit bestScore equals currentScore (the score of the final pose), iter ≥ recursiveIterations, no move at the final steps improves on it, and the score never dropped below the initial one |
| HillClimb.RoundKeepsHeading | src/gmapping/scan_matcher.h:144-178 | when the heading does not affect the score, a round never adopts a turn, so the heading stays |
| HillClimb.TurnsKeepScore | src/gmapping/scan_matcher.h:144-151 | when the heading does not affect the score, TurnLeft and TurnRight score exactly what the pose they turn scores |
| HillClimb.RunKeepsHeading | src/gmapping/scan_matcher.h:114-181 | when the heading does not affect the score, the refined pose keeps the initial heading |
| Registration.MarkFreeAt | src/gmapping/scan_matcher.h:293-295 | the free loop makes every listed cell free, and leaves every other cell (and its presence in the grid) unchanged |
| Registration.WriteBeamAt | src/gmapping/scan_matcher.h:292-295 | one beam writes exactly the cells of its line: free for a cell that occurs before the line's end, the obstacle {1, 1, spx, spy} at the endpoint otherwise |
| Registration.SweepLine | src/gmapping/scan_matcher.h:289-291 | a beam's line is non-empty and ends at the endpoint's cell |
| Registration.RegisteredUntouched | src/gmapping/scan_matcher.h:278-296 | a cell on no beam's line keeps its value, or stays unwritten |
| Registration.RegisteredLastWriter | src/gmapping/scan_matcher.h:278-296 | a cell holds what the last beam whose line crosses it wrote there: later beams overwrite earlier ones |
| Registration.RegisteredGrows | src/gmapping/scan_matcher.h:278-296 | registration never removes a written cell |
| ScanMatching.OptimizeOutcome | src/gmapping/scan_matcher.h:98-185 | optimize's returned score is the score of the returned pose, and its likelihood that pose's likelihood; iter ≥ recursiveIterations; no move at the final steps beats the pose; the score is at least the initial pose's; with a zero offset the heading is kept |
| ScanMatching.ScanMatcher.constructor | src/gmapping/scan_matcher.h:53-55 | the default settings (steps 0.1, 5 iterations, margin 0, skip 0, window 1, scores 1000 and 0), firstScan set, and a fresh default cache: empty tables and zero sin/cos theta, a_min, a_max and delta |
| ScanMatching.ScanMatcher.SearchWindow | src/gmapping/scan_matcher.h:238-256 | the two window loops return the window minimum of the qualifying cells' distances, and found = false exactly when no cell qualifies (BeamMatchSpec gives its meaning) |
| ScanMatching.ScanMatcher.ScoreBeam | src/gmapping/scan_matcher.h:228-256 | a beam's endpoint, free offset and window search give the outcome BeamMatch specifies, with a non-negative distance |
| ScanMatching.ScanMatcher.Score | src/gmapping/scan_matcher.h:203-269 | score returns, through any scorer that agrees with ScoreOf, the pose's sum of weights and matched-beam count, bounded by TallyBounds and ScoreBounds; the cache's rotation is set to the laser heading |
| ScanMatching.ScanMatcher.ExploreMoves | src/gmapping/scan_matcher.h:125-179 | the move loop returns what TryMoves specifies for the scorer: the first strictly best of the six moves, or the current pose |
| ScanMatching.ScanMatcher.OptimizeRound | src/gmapping/scan_matcher.h:115-180 | one pass of the outer loop leaves the state that a round (HillClimb.Round) makes of the old one: halving when the last round did not improve, then the moves |
| ScanMatching.ScanMatcher.Optimize | src/gmapping/scan_matcher.h:98-185 | optimize returns the final state of HillClimb.Run from the initial pose (bestScore, pose, likelihood), for any scorer that agrees with score; its properties are RunSpec and OptimizeOutcome |
| ScanMatching.ScanMatcher.ClimbFrom | src/gmapping/scan_matcher.h:114-184 | the outer loop, from the initial pose with its score, ends in the state the rounds reach when the loop condition fails |
| ScanMatching.ScanMatcher.RegisterScan | src/gmapping/scan_matcher.h:271-297 | the grid becomes Registered(old grid): beams in order, endpoint obstacle then free cells, last write wins; the cache's rotation is set to the laser heading |
| ScanMatching.ScanMatcher.TraceBeam | src/gmapping/scan_matcher.h:280-291 | a beam's endpoint (spx, spy) and its line of cells from p0 are the sweep's endpoint and line for that beam |
| ScanMatching.ScanMatcher.WriteLine | src/gmapping/scan_matcher.h:292-295 | the obstacle {1, 1, spx, spy} at the line's last cell, then the free value at each other cell in order: the grid becomes WriteBeam of the old grid |
| ScanMatching.ScanMatcher.ProcessScan | src/gmapping/scan_matcher.h:57-87 | the likelihood is returned, not the score; if refinedScore > minRegScore or it is the first scan, the scan is registered at the refined pose, poseDelta is refined − init and firstScan is cleared; otherwise the grid and firstScan are untouched and poseDelta is zero |
| CostEstimation.DistSq | src/gmapping/gmapping_cost_estimator.h:66 | a squared distance is never negative |
| CostEstimation.ObstacleCandidate | src/gmapping/gmapping_cost_estimator.h:51-69 | a window cell yields a distance exactly when it is at or above FULLNESS_TH and its free probe (each coordinate minus the free delta, truncated) is below it; that distance is non-negative |
| CostEstimation.BestDist | src/gmapping/gmapping_cost_estimator.h:46-71 | the best distance, when one is found, is never negative |
| CostEstimation.BestDistSpec | src/gmapping/gmapping_cost_estimator.h:46-71 | best_dist stays infinite exactly when no window cell is admissible; otherwise it is a squared distance that some admissible cell attains and that no admissible cell undercuts |
| CostEstimation.BeamWeight | src/gmapping/gmapping_cost_estimator.h:72-74 | a searched beam's weight is in (0, 1]; with no admissible cell the distance used is 9·SIGMA_SQ and the weight is exactly exp(−9) |
| CostEstimation.CostBounds | src/gmapping/gmapping_cost_estimator.h:24-75 | the cost is between 0 and the number of handled beams; the −1 sentinel is in place exactly until the first handled beam, and afterwards the remembered weight is in (0, 1] |
| CostEstimation.HandledIndices | src/gmapping/gmapping_cost_estimator.h:28-31 | the number of handled beams is the number of indices in [margin, hi) that the skip rule keeps (all of them when the rate is 0); which beams are handled is stated per beam by BeamContribution |
| CostEstimation.MemoSource | src/gmapping/gmapping_cost_estimator.h:40-45 | once a beam is handled, the remembered cell and weight are those of the last searched beam: a handled beam whose own weight is remembered, with every beam handled after it in the same cell (LastSearched) |
| CostEstimation.BeamContribution | src/gmapping/gmapping_cost_estimator.h:29-74 | a dropped beam adds nothing; a handled beam whose cell is last_handled_dpoint, once a weight is remembered, adds the remembered weight and keeps the memo; any other handled beam adds its own weight and becomes the memo; either way the weight added is that of the last searched beam, in the same cell; the first handled beam always adds its own weight |
| CostEstimation.EstimateCostBounds | src/gmapping/gmapping_cost_estimator.h:20-78 | the cost is between 0 and the number of indices in the range that the skip rule keeps |
| CostEstimation.GmappingCostEstimator.constructor | src/gmapping/gmapping_cost_estimator.h:18 | the default settings are margin 0, skip rate 3 and window 1 |
| CostEstimation.GmappingCostEstimator.SearchWindow | src/gmapping/gmapping_cost_estimator.h:46-71 | the window loops end with best_dist as the window minimum of the admissible cells' distances, and infinite (not found) exactly when there is none (BestDistSpec gives its meaning) |
| CostEstimation.GmappingCostEstimator.BeamCell | src/gmapping/gmapping_cost_estimator.h:33-39 | the cached cos and sin of the beam angle at the pose's heading, the endpoint in world coordinates and its cell are those of the specification |
| CostEstimation.GmappingCostEstimator.WeighBeam | src/gmapping/gmapping_cost_estimator.h:45-74 | a searched beam's weight is BeamWeight: exp(−best_dist/SIGMA_SQ), or exp(−9) when no cell is admissible |
| CostEstimation.GmappingCostEstimator.HandleBeam | src/gmapping/gmapping_cost_estimator.h:33-74 | for a beam the skip rule keeps, the new scan_weight, last_handled_dpoint and last_dpoint_weight are one step of EstimateCost's loop: the remembered weight is added again when the cell repeats a real weight, otherwise the beam's own weight is added and remembered |
| CostEstimation.GmappingCostEstimator.EstimateScanCost | src/gmapping/gmapping_cost_estimator.h:20-78 | estimate_scan_cost returns EstimateCost (bounded by EstimateCostBounds); the grid is only read, the only change is the scan cache's theta set to the pose's heading, and min_cost plays no part |

## Left out

- Floating-point behaviour is not modelled: rounding, infinities, NaN and the
  accumulation error of `angle += delta`. All arithmetic is on reals, and the
  `<cmath>` functions are uninterpreted apart from the two facts above.
  Round-trip and angle-addition claims that hold only up to a tolerance are
  not stated.
- MatchScore.BeamMatch: its own contract states only that the distance is
  non-negative. What the search finds is stated in `MatchScore.BeamMatchSpec`.
- CostEstimation.BestDist: its own contract states only that the distance is
  non-negative. What the search finds is stated in
  `CostEstimation.BestDistSpec`.
- MatchScore.Length: states only that the result is non-negative. The solver
  cannot settle the converse (a zero length only at the origin) over
  nonlinear reals.
- `GridMap` storage, `world_to_cell`, `map[]`/`cell()` and `DiscreteLine2D`
  are not part of this model.
  - They are abstract: a cell map with a default value, an uninterpreted
    function, and a line function with only the "non-empty, ends at the
    endpoint" property.
  - Bresenham's rasterisation is not modelled.
  - A grid cell's `value()`, and its comparison with a threshold, are the
    `fullness` of its `Occupancy`.
- The `set_theta`/`cos(double)` trigonometric cache used by `sensor_data.h`
  and the cost estimator is not part of this model. It is a class holding
  theta, whose lookups are uninterpreted functions of theta and the angle.
- `Point2D::dist_sq` is not part of this model. It is taken as the squared
  Euclidean distance.
- The default `DiscretePoint2D` is taken to be `(0, 0)`. The `-1` sentinel
  makes this choice irrelevant.
- Termination of `optimize` is not claimed.
  - `ScanMatching.ScanMatcher.ClimbFrom` follows the climb through a ghost step
    function that agrees with `HillClimb.Round` (`HillClimb.StepsAs`), and
    `HillClimb.IterateRuns` ties it back to `HillClimb.Run`.
  - `ScanMatching.ScanMatcher.Optimize` and `ScanMatching.ScanMatcher.ProcessScan`
    take a ghost fuel bound.
  - They require that the climb stops within that many rounds.
- ScanMatching.ScanMatcher.Optimize: its contract ties the result to
  `HillClimb.Run`. The consequences (score of the returned pose, local
  optimum, iteration count, heading) are proved in
  `ScanMatching.OptimizeOutcome`, not repeated in the method's own `ensures`.
- Unsigned wrap-around of `size() - margin` is not modelled.
  - Every scorer and registration requires `margin <= size`.
  - Margins, and the cost estimator's skip rate, are natural numbers, so a
    negative `int` setting converted to `size_t` is not modelled.
- TrigonometricTables.TrigonometricCache.CreateCache: requires a positive
  increment whenever the bounds change and `a_min < a_max`. With any other
  increment the source's table loop never ends: every angle it reaches stays
  below `a_max` (`TrigonometricTables.CreateCacheDiverges`). Its only call
  site is commented out.
  The tables are built in local sequences and stored when the loop ends,
  rather than cleared and pushed to in place. Nothing else can observe them
  during the loop.
- Commented-out code is not modelled:
  - the `createCache` call in `processScan`;
  - the `maxRegScore` branch;
  - the odometry gain;
  - the alternative score formulas;
  - the range checks;
  - the `angleCache.cos(i)` lookups.
- `operator<<` and the debug output are not modelled (I/O).
- `shared_ptr` reference counting is not modelled. The shared cache is one
  object referenced by both scans.
- `LaserScan2D::points()` (both overloads) is the `points` field.
- SensorData.LaserScan2D.ToCartesian: requires a non-null cache. The source
  dereferences the `shared_ptr` without a check, so an empty pointer is
  undefined behaviour there, and the model does not cover that case.
- The `assert(0 && "Unknown point type")` branch is unreachable, because the
  tag has exactly two values.
- A scan, as the gmapping code reads it, is its sequence of `(range, angle)`
  beams. The following are not modelled:
  - `TransformedLaserScan::pose_delta` and `quality`;
  - `AreaOccupancyObservation` (plain data without behaviour).
- `GmappingCostEstimator`'s base interface `ScanCostEstimator` is not
  modelled. Nothing in the core dispatches through it. `ScanMatcher` has no
  base class.
