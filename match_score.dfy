// What ScanMatcher::score computes, as functions of the pose, the scan and a
// snapshot of the grid: the beams kept by the skip counter, each beam's
// endpoint and window search with its occlusion test, and the running sum of
// weights and count of matched beams.

module MatchScore {
  import opened Common
  import opened Window

  /** m_fullnessThreshold */
  const FullnessThreshold: real := 0.2
  /** m_gaussianSigma */
  const GaussianSigma: real := 0.01

  /** The private settings of a ScanMatcher. */
  datatype MatcherConfig = MatcherConfig(
    angularStep: real,
    linearStep: real,
    recursiveIterations: int,
    laserScanMargin: nat,
    laserScanSkipRate: int,
    windowSize: int,
    maxRegScore: real,
    minRegScore: real,
    laserOffset: RobotPose)

  /** Everything a score depends on: the grid as it is read, the beams, the
      settings and the floating-point library. */
  datatype MatchContext = MatchContext(g: GridView, scan: seq<Beam>, cfg: MatcherConfig, m: Elementary)

  /** The margins leave a (possibly empty) range of beam indices; a margin
      larger than the scan would make the unsigned bound wrap around. */
  predicate WellFormed(ctx: MatchContext)
  {
    ctx.cfg.laserScanMargin <= |ctx.scan|
  }

  /** The end of the beam range [margin, size - margin), never below its start. */
  function BeamsEnd(size: nat, margin: nat): (hi: nat)
    requires margin <= size
    ensures margin <= hi <= size
    ensures hi == margin || hi == size - margin
    ensures 2 * margin <= size ==> hi == size - margin
  {
    if margin <= size - margin then size - margin else margin
  }

  /** length(x, y): the squared length. */
  function Length(x: real, y: real): (r: real)
    ensures 0.0 <= r
  {
    x * x + y * y
  }

  /** getLaserPose: the robot pose composed with the laser offset; the
      short cut taken for a zero offset agrees with the general formula. */
  function LaserPose(pose: RobotPose, offset: RobotPose, m: Elementary): (r: RobotPose)
    ensures r.x == pose.x + m.cos(pose.theta) * offset.x - m.sin(pose.theta) * offset.y
    ensures r.y == pose.y + m.sin(pose.theta) * offset.x + m.cos(pose.theta) * offset.y
    ensures r.theta == pose.theta + offset.theta
    ensures offset == ZeroPose ==> r == pose
  {
    if offset.x == 0.0 && offset.y == 0.0 && offset.theta == 0.0 then pose
    else
      var c, s := m.cos(pose.theta), m.sin(pose.theta);
      RobotPose(pose.x + c * offset.x - s * offset.y, pose.y + s * offset.x + c * offset.y, pose.theta + offset.theta)
  }

  /** The beam's endpoint (spx, spy): the beam direction is cos/sin of the
      beam's own angle; the pose's heading does not enter it. */
  function BeamEndpoint(lp: RobotPose, b: Beam, m: Elementary): Point2D
  {
    Along(lp.x, lp.y, b.range, m.cos(b.angle), m.sin(b.angle))
  }

  /** freePoint: minus the rounded direction scaled by sqrt(2). */
  function FreeOffset(b: Beam, m: Elementary): Cell
  {
    var freeDelta := m.sqrt(2.0);
    Cell(-m.round(freeDelta * m.cos(b.angle)), -m.round(freeDelta * m.sin(b.angle)))
  }

  /** A window cell qualifies when it is full enough and the cell one free
      offset away is not. */
  ghost predicate Qualifies(g: GridView, center: Cell, free: Cell, a: int, b: int)
  {
    var test := Cell(center.x + a, center.y + b);
    g.At(Cell(test.x + free.x, test.y + free.y)).fullness < FullnessThreshold &&
    FullnessThreshold <= g.At(test).fullness
  }

  /** The squared distance from the endpoint to the obstacle of the window
      cell at offset (a, b), when that cell qualifies. */
  function MatchCandidate(g: GridView, center: Cell, free: Cell, sp: Point2D, a: int, b: int): (r: Option<real>)
    ensures r.Some? <==> Qualifies(g, center, free, a, b)
    ensures r.Some? ==> 0.0 <= r.value
  {
    var test := Cell(center.x + a, center.y + b);
    var cell := g.At(test);
    var fcell := g.At(Cell(test.x + free.x, test.y + free.y));
    if fcell.fullness < FullnessThreshold && FullnessThreshold <= cell.fullness
    then Some(Length(sp.x - cell.obstX, sp.y - cell.obstY))
    else None
  }

  function MatchCandidates(g: GridView, center: Cell, free: Cell, sp: Point2D): (int, int) -> Option<real>
  {
    (a: int, b: int) => MatchCandidate(g, center, free, sp, a, b)
  }

  /** `cand` gives every offset of the window its candidate. The agreement is
      used only where the candidate of an offset is spelled out. */
  ghost predicate CandidatesOf(cand: (int, int) -> Option<real>, g: GridView, center: Cell, free: Cell, sp: Point2D)
  {
    forall a, b {:trigger MatchCandidate(g, center, free, sp, a, b)} :: cand(a, b) == MatchCandidate(g, center, free, sp, a, b)
  }

  /** The beam's window search around its endpoint `sp`: nothing when no
      cell of the window qualifies, otherwise the least squared distance over
      the qualifying cells (BeamMatchSpec). */
  function BeamMatch(g: GridView, sp: Point2D, b: Beam, w: int, m: Elementary): (r: Option<real>)
    ensures r.Some? ==> 0.0 <= r.value
  {
    var cand := MatchCandidates(g, g.toCell(sp.x, sp.y), FreeOffset(b, m), sp);
    WindowMinIsMinimum(cand, w);
    WindowMin(cand, w, -w, -w, None)
  }

  /** What the window search finds: nothing exactly when no window cell
      qualifies; otherwise a distance that some qualifying cell attains and
      that no qualifying cell undercuts. */
  lemma BeamMatchSpec(g: GridView, sp: Point2D, b: Beam, w: int, m: Elementary)
    ensures var r := BeamMatch(g, sp, b, w, m);
      var center := g.toCell(sp.x, sp.y);
      var free := FreeOffset(b, m);
      && (r.None? <==> forall a, b :: InWindow(w, a, b) ==> !Qualifies(g, center, free, a, b))
      && (r.Some? ==> exists a, b :: InWindow(w, a, b) && MatchCandidate(g, center, free, sp, a, b) == Some(r.value))
      && (forall a, b :: InWindow(w, a, b) && Qualifies(g, center, free, a, b) ==>
            r.Some? && r.value <= MatchCandidate(g, center, free, sp, a, b).value)
  {
    WindowMinIsMinimum(MatchCandidates(g, g.toCell(sp.x, sp.y), FreeOffset(b, m), sp), w);
  }

  /** The skip counter keeps the beam at position k of the range (counting
      from 0) when it wraps to 0 there: every (rate+1)-th beam, or every beam
      when rate <= 0. */
  predicate KeptBySkip(k: nat, rate: int)
  {
    rate <= 0 || (k + 1) % (rate + 1) == 0
  }

  /** The skip counter's value before the beam at position k is examined. */
  function SkipCounter(k: nat, rate: int): int
  {
    if rate <= 0 then 0 else k % (rate + 1)
  }

  lemma MulBand(d: int, z: int)
    requires 0 < d && -d < d * z < d
    ensures z == 0
  {
  }

  /** Counting up by one: the remainder steps by one and wraps to 0 exactly
      when the quotient steps. */
  lemma ModSucc(k: nat, d: int)
    requires 0 < d
    ensures (k + 1) % d == if k % d == d - 1 then 0 else k % d + 1
    ensures (k + 1) / d == if k % d == d - 1 then k / d + 1 else k / d
  {
    var q, r := k / d, k % d;
    var q', r' := (k + 1) / d, (k + 1) % d;
    assert k == d * q + r;
    assert k + 1 == d * q' + r';
    if r == d - 1 {
      assert d * (q' - q - 1) == d * q' - d * q - d;
      MulBand(d, q' - q - 1);
    } else {
      assert d * (q' - q) == d * q' - d * q;
      MulBand(d, q' - q);
    }
  }

  /** One update `skip = ++skip > rate ? 0 : skip` moves the counter from
      position k to position k + 1, and it is 0 exactly at the kept beams. */
  lemma SkipCounterStep(k: nat, rate: int)
    ensures var s := SkipCounter(k, rate) + 1;
      var next := if s > rate then 0 else s;
      next == SkipCounter(k + 1, rate) && (next == 0 <==> KeptBySkip(k, rate))
  {
    if rate > 0 {
      ModSucc(k, rate + 1);
    }
  }

  /** A matched beam's weight exp(-d / sigma) for its least squared
      distance d; it lies in (0, 1]. */
  function MatchWeight(d: real, m: Elementary): (r: real)
    requires 0.0 <= d
    ensures 0.0 < r <= 1.0
  {
    m.exp(-1.0 / GaussianSigma * d)
  }

  /** The running state of score: the sum of weights, the likelihood (beams
      that found a qualifying cell) and, for the statement of the bounds, the
      number of beams the skip counter let through. */
  datatype Tally = Tally(score: real, likelihood: real, handled: nat)

  /** The state after the beams margin .. hi-1 have been examined. */
  function TallyUpTo(ctx: MatchContext, lp: RobotPose, hi: int): Tally
    requires ctx.cfg.laserScanMargin <= hi <= |ctx.scan|
    decreases hi
  {
    var margin := ctx.cfg.laserScanMargin;
    if hi == margin then Tally(0.0, 0.0, 0)
    else
      var t := TallyUpTo(ctx, lp, hi - 1);
      if !KeptBySkip(hi - 1 - margin, ctx.cfg.laserScanSkipRate) then t
      else
        var b := ctx.scan[hi - 1];
        match BeamMatch(ctx.g, BeamEndpoint(lp, b, ctx.m), b, ctx.cfg.windowSize, ctx.m)
        case None => Tally(t.score, t.likelihood, t.handled + 1)
        case Some(d) => Tally(t.score + MatchWeight(d, ctx.m), t.likelihood + 1.0, t.handled + 1)
  }

  /** One more beam of the range: unchanged when the skip counter drops it,
      otherwise one more handled beam, and with a match one more unit of
      likelihood and the match's weight. */
  lemma TallyStep(ctx: MatchContext, lp: RobotPose, hi: int, found: bool, bestDist: real)
    requires ctx.cfg.laserScanMargin <= hi < |ctx.scan|
    requires var b := ctx.scan[hi];
      KeptBySkip(hi - ctx.cfg.laserScanMargin, ctx.cfg.laserScanSkipRate) ==>
        (if found then Some(bestDist) else None) == BeamMatch(ctx.g, BeamEndpoint(lp, b, ctx.m), b, ctx.cfg.windowSize, ctx.m)
    ensures var t, t' := TallyUpTo(ctx, lp, hi), TallyUpTo(ctx, lp, hi + 1);
      if !KeptBySkip(hi - ctx.cfg.laserScanMargin, ctx.cfg.laserScanSkipRate) then t' == t
      else if found then 0.0 <= bestDist && t' == Tally(t.score + MatchWeight(bestDist, ctx.m), t.likelihood + 1.0, t.handled + 1)
      else t' == Tally(t.score, t.likelihood, t.handled + 1)
  {
  }

  /** score(pose): the tally over the whole beam range at the laser pose. */
  function ScoreOf(ctx: MatchContext, pose: RobotPose): Tally
    requires WellFormed(ctx)
  {
    var margin := ctx.cfg.laserScanMargin;
    TallyUpTo(ctx, LaserPose(pose, ctx.cfg.laserOffset, ctx.m), BeamsEnd(|ctx.scan|, margin))
  }

  /** Each matched beam adds a weight in (0, 1], so the score is non-negative
      and at most the likelihood, which is at most the number of beams kept. */
  lemma {:induction false} TallyBounds(ctx: MatchContext, lp: RobotPose, hi: int)
    requires ctx.cfg.laserScanMargin <= hi <= |ctx.scan|
    ensures var t := TallyUpTo(ctx, lp, hi);
      0.0 <= t.score <= t.likelihood <= t.handled as real && t.handled <= hi - ctx.cfg.laserScanMargin
    decreases hi
  {
    if hi > ctx.cfg.laserScanMargin {
      TallyBounds(ctx, lp, hi - 1);
    }
  }

  /** The kept beams are exactly every (rate+1)-th one of the range. */
  lemma {:induction false} HandledCount(ctx: MatchContext, lp: RobotPose, hi: int)
    requires ctx.cfg.laserScanMargin <= hi <= |ctx.scan|
    ensures var n, rate := hi - ctx.cfg.laserScanMargin, ctx.cfg.laserScanSkipRate;
      TallyUpTo(ctx, lp, hi).handled == if rate <= 0 then n else n / (rate + 1)
    decreases hi
  {
    var margin, rate := ctx.cfg.laserScanMargin, ctx.cfg.laserScanSkipRate;
    if hi > margin {
      HandledCount(ctx, lp, hi - 1);
      if rate > 0 {
        ModSucc(hi - 1 - margin, rate + 1);
      }
    }
  }

  /** The score at the laser pose depends on its position only. */
  lemma {:induction false} TallyIgnoresHeading(ctx: MatchContext, lp1: RobotPose, lp2: RobotPose, hi: int)
    requires ctx.cfg.laserScanMargin <= hi <= |ctx.scan|
    requires lp1.x == lp2.x && lp1.y == lp2.y
    ensures TallyUpTo(ctx, lp1, hi) == TallyUpTo(ctx, lp2, hi)
    decreases hi
  {
    if hi > ctx.cfg.laserScanMargin {
      TallyIgnoresHeading(ctx, lp1, lp2, hi - 1);
      var b := ctx.scan[hi - 1];
      var r := BeamMatch(ctx.g, BeamEndpoint(lp1, b, ctx.m), b, ctx.cfg.windowSize, ctx.m);
      assert BeamEndpoint(lp1, b, ctx.m) == BeamEndpoint(lp2, b, ctx.m);
      TallyStep(ctx, lp1, hi - 1, r.Some?, if r.Some? then r.value else 0.0);
      TallyStep(ctx, lp2, hi - 1, r.Some?, if r.Some? then r.value else 0.0);
    }
  }

  /** With no laser offset, turning the pose leaves its score and likelihood
      unchanged: the heading never reaches the beam directions. */
  lemma ScoreIgnoresHeading(ctx: MatchContext, pose: RobotPose, theta: real)
    requires WellFormed(ctx) && ctx.cfg.laserOffset == ZeroPose
    ensures ScoreOf(ctx, pose.(theta := theta)) == ScoreOf(ctx, pose)
  {
    TallyIgnoresHeading(ctx, pose.(theta := theta), pose, BeamsEnd(|ctx.scan|, ctx.cfg.laserScanMargin));
  }

  /** score is non-negative and bounded by its likelihood, which is bounded by
      the number of beams kept. */
  lemma ScoreBounds(ctx: MatchContext, pose: RobotPose)
    requires WellFormed(ctx)
    ensures var t := ScoreOf(ctx, pose);
      0.0 <= t.score <= t.likelihood <= t.handled as real
  {
    TallyBounds(ctx, LaserPose(pose, ctx.cfg.laserOffset, ctx.m), BeamsEnd(|ctx.scan|, ctx.cfg.laserScanMargin));
  }

  /** A scorer that gives every pose its score. The agreement is used only
      where a concrete score of the pose is already at hand. */
  ghost predicate ScoresAs(sc: RobotPose -> Tally, ctx: MatchContext)
  {
    WellFormed(ctx) && forall p {:trigger ScoreOf(ctx, p)} :: sc(p) == ScoreOf(ctx, p)
  }

  /** score as a total function of the pose, as the optimiser sees it. */
  function ScoreFn(ctx: MatchContext): RobotPose -> Tally
  {
    (pose: RobotPose) => if WellFormed(ctx) then ScoreOf(ctx, pose) else Tally(0.0, 0.0, 0)
  }

  /** Such a scorer exists for every well-formed context. */
  lemma ScoreFnAgrees(ctx: MatchContext)
    requires WellFormed(ctx)
    ensures ScoresAs(ScoreFn(ctx), ctx)
  {
  }

  /** Through a scorer that agrees with score, every pose's score lies
      between 0 and its likelihood, and with no laser offset the heading of
      the pose does not change its score. */
  lemma ScorerSpec(sc: RobotPose -> Tally, ctx: MatchContext)
    requires ScoresAs(sc, ctx)
    ensures forall p :: 0.0 <= sc(p).score <= sc(p).likelihood
    ensures ctx.cfg.laserOffset == ZeroPose ==>
      forall p: RobotPose, t: real :: sc(p.(theta := t)) == sc(p)
  {
    forall p ensures 0.0 <= sc(p).score <= sc(p).likelihood {
      ScoreBounds(ctx, p);
    }
    if ctx.cfg.laserOffset == ZeroPose {
      forall p: RobotPose, t: real ensures sc(p.(theta := t)) == sc(p) {
        ScoreIgnoresHeading(ctx, p, t);
        assert sc(p) == ScoreOf(ctx, p);
        assert sc(p.(theta := t)) == ScoreOf(ctx, p.(theta := t));
      }
    }
  }
}
