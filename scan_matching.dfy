// The gmapping ScanMatcher: its settings, the trigonometric cache it keeps,
// and the first-scan flag; score, optimize, registerScan and processScan as
// methods whose loops are proved against the functions of MatchScore,
// HillClimb and Registration.

module ScanMatching {
  import opened Common
  import opened Window
  import opened MatchScore
  import opened HillClimb
  import opened Registration
  import opened TrigonometricTables

  /** The constructor's settings. */
  const DefaultConfig := MatcherConfig(0.1, 0.1, 5, 0, 0, 1, 1000.0, 0.0, ZeroPose)

  /** What optimize promises about the end of the hill climb: the result
      carries its pose's score and likelihood, no move at the final steps
      beats it, at least recursiveIterations halvings happened, the score is at
      least the initial pose's, and with no laser offset the heading is kept. */
  lemma OptimizeOutcome(ctx: MatchContext, sc: Scorer, init: RobotPose, fuel: nat)
    requires ScoresAs(sc, ctx)
    requires Run(sc, ctx.cfg, Start(sc, ctx.cfg, init), fuel).Some?
    ensures var r := Run(sc, ctx.cfg, Start(sc, ctx.cfg, init), fuel).value;
      && r.bestScore == ScoreOf(ctx, r.pose).score
      && r.likelihood == ScoreOf(ctx, r.pose).likelihood
      && r.iter >= ctx.cfg.recursiveIterations
      && (forall mv :: mv != Done ==> ScoreOf(ctx, Moved(r.pose, mv, r.ldelta, r.adelta)).score <= r.bestScore)
      && ScoreOf(ctx, init).score <= r.bestScore
      && (ctx.cfg.laserOffset == ZeroPose ==> r.pose.theta == init.theta)
  {
    ScorerSpec(sc, ctx);
    StartSpec(sc, ctx.cfg, init);
    RunSpec(sc, ctx.cfg, Start(sc, ctx.cfg, init), fuel);
    var r := Run(sc, ctx.cfg, Start(sc, ctx.cfg, init), fuel).value;
    forall mv | mv != Done
      ensures ScoreOf(ctx, Moved(r.pose, mv, r.ldelta, r.adelta)).score <= r.bestScore
    {
      assert CandidateAt(sc, r.pose, r.ldelta, r.adelta, mv).score <= r.currentScore;
      assert sc(Moved(r.pose, mv, r.ldelta, r.adelta)) == ScoreOf(ctx, Moved(r.pose, mv, r.ldelta, r.adelta));
    }
    if ctx.cfg.laserOffset == ZeroPose {
      RunKeepsHeading(sc, ctx.cfg, Start(sc, ctx.cfg, init), fuel);
    }
  }

  class ScanMatcher {
    const cfg: MatcherConfig
    const math: Elementary
    const angleCache: TrigonometricCache
    var firstScan: bool

    constructor (math: Elementary)
      ensures cfg == DefaultConfig && this.math == math && firstScan
      ensures fresh(angleCache) && angleCache.Valid() && angleCache.math == math
      ensures angleCache.sinTable == [] && angleCache.cosTable == []
      ensures angleCache.sinTheta == 0.0 && angleCache.cosTheta == 0.0
      ensures angleCache.angleMin == 0.0 && angleCache.angleMax == 0.0 && angleCache.angleDelta == 0.0
    {
      cfg := DefaultConfig;
      this.math := math;
      angleCache := new TrigonometricCache(math);
      firstScan := true;
    }

    /** What a score depends on: the grid as it is read, and the beams. */
    function Context(g: GridView, scan: seq<Beam>): MatchContext
    {
      MatchContext(g, scan, cfg, math)
    }

    /** The inputs of registerScan at `pose`. */
    function SweepAt(grid: GridMap, pose: RobotPose, scan: seq<Beam>, line: LineFn): Sweep
    {
      Sweep(grid.worldToCell, line, LaserPose(pose, cfg.laserOffset, math), scan, cfg.laserScanMargin, math)
    }

    /** The window loops of score for one beam, over the candidates `cand`
        of its window: `found` tells whether a window cell qualifies, and
        `bestDist` is then the least squared distance to a qualifying cell's
        obstacle, as Window.WindowMin computes them. */
    method SearchWindow(g: GridView, scanPoint: Cell, freePoint: Cell, sp: Point2D, ghost cand: (int, int) -> Option<real>)
      returns (found: bool, bestDist: real)
      requires CandidatesOf(cand, g, scanPoint, freePoint, sp)
      ensures (if found then Some(bestDist) else None) == WindowMin(cand, cfg.windowSize, -cfg.windowSize, -cfg.windowSize, None)
    {
      var w := cfg.windowSize;
      ghost var target := WindowMin(cand, w, -w, -w, None);
      found, bestDist := false, 0.0;
      var xx := -w;
      while xx <= w
        invariant -w <= xx
        invariant WindowMin(cand, w, xx, -w, if found then Some(bestDist) else None) == target
        decreases w + 1 - xx
      {
        var yy := -w;
        while yy <= w
          invariant -w <= yy
          invariant WindowMin(cand, w, xx, yy, if found then Some(bestDist) else None) == target
          decreases w + 1 - yy
        {
          WindowMinStep(cand, w, xx, yy, if found then Some(bestDist) else None);
          assert cand(xx, yy) == MatchCandidate(g, scanPoint, freePoint, sp, xx, yy);
          var test := Cell(scanPoint.x + xx, scanPoint.y + yy);
          var cell := g.At(test);
          var fcell := g.At(Cell(test.x + freePoint.x, test.y + freePoint.y));
          if fcell.fullness < FullnessThreshold && FullnessThreshold <= cell.fullness {
            var dist := Length(sp.x - cell.obstX, sp.y - cell.obstY);
            if dist < bestDist || !found {
              bestDist := dist;
              found := true;
            }
          }
          yy := yy + 1;
        }
        xx := xx + 1;
      }
    }

    /** The body of score's beam loop up to the weight: the endpoint, its
        cell, the free offset and the window search, with the outcome that
        MatchScore.BeamMatch specifies. */
    method ScoreBeam(g: GridView, laserPose: RobotPose, beam: Beam) returns (found: bool, bestDist: real)
      ensures (if found then Some(bestDist) else None) == BeamMatch(g, BeamEndpoint(laserPose, beam, math), beam, cfg.windowSize, math)
      ensures found ==> 0.0 <= bestDist
    {
      var r := beam.range;
      var angle := beam.angle;
      var c := math.cos(angle);
      var s := math.sin(angle);
      var sp := Along(laserPose.x, laserPose.y, r, c, s);
      var spx, spy := sp.x, sp.y;
      var scanPoint := g.toCell(spx, spy);
      var freePoint := FreeOffset(beam, math);
      assert Point2D(spx, spy) == BeamEndpoint(laserPose, beam, math);
      found, bestDist := SearchWindow(g, scanPoint, freePoint, Point2D(spx, spy), MatchCandidates(g, scanPoint, freePoint, Point2D(spx, spy)));
    }

    /** score: the sum of the weights of the matched beams and their number,
        as the specification function computes them; the cache's rotation is
        set to the laser heading. */
    method Score(pose: RobotPose, scan: seq<Beam>, g: GridView, ghost sc: Scorer) returns (score: real, likelihood: real)
      requires ScoresAs(sc, Context(g, scan))
      modifies angleCache`sinTheta, angleCache`cosTheta
      ensures score == sc(pose).score && likelihood == sc(pose).likelihood
      ensures var theta := pose.theta + cfg.laserOffset.theta;
        angleCache.sinTheta == angleCache.math.sin(theta) && angleCache.cosTheta == angleCache.math.cos(theta)
    {
      ghost var ctx := Context(g, scan);
      var margin, rate := cfg.laserScanMargin, cfg.laserScanSkipRate;
      score, likelihood := 0.0, 0.0;
      var skip := 0;
      var laserPose := LaserPose(pose, cfg.laserOffset, math);
      angleCache.SetTheta(laserPose.theta);
      var i := margin;
      while i < |scan| - margin
        invariant margin <= i <= BeamsEnd(|scan|, margin)
        invariant skip == SkipCounter(i - margin, rate)
        invariant var t := TallyUpTo(ctx, laserPose, i); score == t.score && likelihood == t.likelihood
        modifies {}
      {
        SkipCounterStep(i - margin, rate);
        skip := if skip + 1 > rate then 0 else skip + 1;
        if skip != 0 {
          TallyStep(ctx, laserPose, i, false, 0.0);
          i := i + 1;
          continue;
        }
        var found, bestDist := ScoreBeam(g, laserPose, scan[i]);
        TallyStep(ctx, laserPose, i, found, bestDist);
        if found {
          score := score + MatchWeight(bestDist, math);
          likelihood := likelihood + 1.0;
        }
        i := i + 1;
      }
      assert TallyUpTo(ctx, laserPose, i) == ScoreOf(ctx, pose);
    }

    /** The move loop of one optimize round: the six moves around
        `currentPose`, each adopted when its score beats the best so far,
        as HillClimb.TryMoves specifies. */
    method ExploreMoves(currentPose: RobotPose, score: real, likelihood: real, ldelta: real, adelta: real,
                        scan: seq<Beam>, g: GridView, ghost sc: Scorer)
      returns (bestLocalPose: RobotPose, currentScore: real, bestLikelihood: real)
      requires ScoresAs(sc, Context(g, scan))
      modifies angleCache`sinTheta, angleCache`cosTheta
      ensures Candidate(bestLocalPose, currentScore, bestLikelihood) ==
        TryMoves(sc, currentPose, ldelta, adelta, Front, Candidate(currentPose, score, likelihood))
    {
      ghost var start := Candidate(currentPose, score, likelihood);
      currentScore, bestLikelihood := score, likelihood;
      bestLocalPose := currentPose;
      var move := Front;
      while move != Done
        invariant TryMoves(sc, currentPose, ldelta, adelta, move, Candidate(bestLocalPose, currentScore, bestLikelihood)) ==
          TryMoves(sc, currentPose, ldelta, adelta, Front, start)
        decreases MovesLeft(move)
      {
        ghost var tried := move;
        var localPose := currentPose;
        match move {
          case Front =>
            localPose := localPose.(x := localPose.x + ldelta);
            move := Back;
          case Back =>
            localPose := localPose.(x := localPose.x - ldelta);
            move := Left;
          case Left =>
            localPose := localPose.(y := localPose.y - ldelta);
            move := Right;
          case Right =>
            localPose := localPose.(y := localPose.y + ldelta);
            move := TurnLeft;
          case TurnLeft =>
            localPose := localPose.(theta := localPose.theta + adelta);
            move := TurnRight;
          case TurnRight =>
            localPose := localPose.(theta := localPose.theta - adelta);
            move := Done;
        }
        assert localPose == Moved(currentPose, tried, ldelta, adelta) && move == NextMove(tried);
        var localScore, localLikelihood := Score(localPose, scan, g, sc);
        if localScore > currentScore {
          currentScore := localScore;
          bestLocalPose := localPose;
          bestLikelihood := localLikelihood;
        }
      }
    }

    /** One pass of optimize's outer loop: halve the steps and count the
        halving when the previous round did not improve, then run the move
        loop around the current pose; the new state is HillClimb.Round of the
        old one, given through any `step` that does what Round does. */
    method OptimizeRound(currentPose: RobotPose, currentScore: real, bestScore: real, bestLikelihood: real,
                         iter: nat, ldelta: real, adelta: real, scan: seq<Beam>, g: GridView,
                         ghost sc: Scorer, ghost step: Climb -> Climb)
      returns (currentPose': RobotPose, currentScore': real, bestScore': real, bestLikelihood': real,
               iter': nat, ldelta': real, adelta': real)
      requires ScoresAs(sc, Context(g, scan)) && StepsAs(step, sc)
      modifies angleCache`sinTheta, angleCache`cosTheta
      ensures Climb(currentPose', currentScore', bestScore', bestLikelihood', iter', ldelta', adelta') ==
        step(Climb(currentPose, currentScore, bestScore, bestLikelihood, iter, ldelta, adelta))
    {
      iter', ldelta', adelta' := iter, ldelta, adelta;
      if bestScore >= currentScore {
        iter' := iter' + 1;
        adelta' := adelta' * 0.5;
        ldelta' := ldelta' * 0.5;
      }
      bestScore' := currentScore;
      currentPose', currentScore', bestLikelihood' :=
        ExploreMoves(currentPose, currentScore, bestLikelihood, ldelta', adelta', scan, g, sc);
      ghost var s := Climb(currentPose, currentScore, bestScore, bestLikelihood, iter, ldelta, adelta);
      RoundUnfold(sc, s, iter', ldelta', adelta', Candidate(currentPose', currentScore', bestLikelihood'));
      assert step(s) == Round(sc, s);
    }

    method Optimize(initPose: RobotPose, scan: seq<Beam>, g: GridView, ghost sc: Scorer, ghost fuel: nat)
      returns (bestScore: real, newPose: RobotPose, newLikelihood: real)
      requires ScoresAs(sc, Context(g, scan))
      requires Run(sc, cfg, Start(sc, cfg, initPose), fuel).Some?
      modifies angleCache`sinTheta, angleCache`cosTheta
      ensures var r := Run(sc, cfg, Start(sc, cfg, initPose), fuel).value;
        bestScore == r.bestScore && newPose == r.pose && newLikelihood == r.likelihood
    {
      ghost var step := RoundStep(sc);
      IterateRuns(step, sc, cfg, Start(sc, cfg, initPose), fuel);
      var currentScore, likelihood := Score(initPose, scan, g, sc);
      bestScore, newPose, newLikelihood := ClimbFrom(initPose, currentScore, likelihood, scan, g, sc, step, fuel);
    }

    method ClimbFrom(initPose: RobotPose, score: real, likelihood: real, scan: seq<Beam>, g: GridView,
                 ghost sc: Scorer, ghost step: Climb -> Climb, ghost fuel: nat)
      returns (bestScore: real, newPose: RobotPose, newLikelihood: real)
      requires ScoresAs(sc, Context(g, scan)) && StepsAs(step, sc)
      requires score == sc(initPose).score && likelihood == sc(initPose).likelihood
      requires Iterate(step, cfg, Start(sc, cfg, initPose), fuel).Some?
      modifies angleCache`sinTheta, angleCache`cosTheta
      ensures var r := Iterate(step, cfg, Start(sc, cfg, initPose), fuel).value;
        bestScore == r.bestScore && newPose == r.pose && newLikelihood == r.likelihood
    {
      ghost var goal := Iterate(step, cfg, Start(sc, cfg, initPose), fuel);
      var currentPose, currentScore, bestLikelihood := initPose, score, likelihood;
      var adelta, ldelta := cfg.angularStep, cfg.linearStep;
      bestScore := -1.0;
      var iter: nat := 0;
      ghost var state := Climb(currentPose, currentScore, bestScore, bestLikelihood, iter, ldelta, adelta);
      ghost var fuelLeft := fuel;
      while currentScore > bestScore || iter < cfg.recursiveIterations
        invariant state == Climb(currentPose, currentScore, bestScore, bestLikelihood, iter, ldelta, adelta)
        invariant Iterate(step, cfg, state, fuelLeft) == goal
        decreases fuelLeft
      {
        currentPose, currentScore, bestScore, bestLikelihood, iter, ldelta, adelta :=
          OptimizeRound(currentPose, currentScore, bestScore, bestLikelihood, iter, ldelta, adelta, scan, g, sc, step);
        state, fuelLeft := step(state), fuelLeft - 1;
      }
      newPose := currentPose;
      newLikelihood := bestLikelihood;
    }

    /** registerScan: the grid becomes what Registration.Registered computes
        from it, beam by beam; the cache's rotation is set to the laser
        heading. */
    method RegisterScan(pose: RobotPose, scan: seq<Beam>, grid: GridMap, line: LineFn)
      requires cfg.laserScanMargin <= |scan|
      modifies angleCache`sinTheta, angleCache`cosTheta, grid
      ensures grid.cells == Registered(old(grid.cells), SweepAt(grid, pose, scan, line), BeamsEnd(|scan|, cfg.laserScanMargin))
      ensures var theta := LaserPose(pose, cfg.laserOffset, math).theta;
        angleCache.sinTheta == angleCache.math.sin(theta) && angleCache.cosTheta == angleCache.math.cos(theta)
    {
      ghost var sw := SweepAt(grid, pose, scan, line);
      var margin := cfg.laserScanMargin;
      var laserPose := LaserPose(pose, cfg.laserOffset, math);
      angleCache.SetTheta(laserPose.theta);
      var p0 := grid.worldToCell(laserPose.x, laserPose.y);
      var i := margin;
      while i < |scan| - margin
        invariant margin <= i <= BeamsEnd(|scan|, margin)
        invariant grid.cells == Registered(old(grid.cells), sw, i)
        invariant angleCache.sinTheta == angleCache.math.sin(laserPose.theta)
        invariant angleCache.cosTheta == angleCache.math.cos(laserPose.theta)
      {
        var points, spx, spy := TraceBeam(laserPose, scan[i], p0, grid.worldToCell, line, sw, i);
        WriteLine(grid, points, spx, spy);
        i := i + 1;
      }
      assert i == BeamsEnd(|scan|, margin);
    }

    /** The endpoint of one beam of registerScan and the line of cells from
        the laser cell p0 to the endpoint's cell: the i-th endpoint and line
        of the sweep `sw`. */
    method TraceBeam(laserPose: RobotPose, beam: Beam, p0: Cell, toCell: (real, real) -> Cell, line: LineFn,
                     ghost sw: Sweep, ghost i: int)
      returns (points: seq<Cell>, spx: real, spy: real)
      requires 0 <= i < |sw.scan| && sw.scan[i] == beam
      requires sw.lp == laserPose && sw.toCell == toCell && sw.line == line && sw.m == math
      requires p0 == toCell(laserPose.x, laserPose.y)
      ensures points == SweepLine(sw, i) && Point2D(spx, spy) == SweepPoint(sw, i)
    {
      var sp := Along(laserPose.x, laserPose.y, beam.range, math.cos(beam.angle), math.sin(beam.angle));
      spx, spy := sp.x, sp.y;
      var p1 := toCell(spx, spy);
      points := line(p0, p1);
      assert Point2D(spx, spy) == SweepPoint(sw, i);
      assert p1 == sw.toCell(SweepPoint(sw, i).x, SweepPoint(sw, i).y);
    }

    /** The body of registerScan's beam loop: the obstacle value at the last
        cell of the line, then the free value at every other cell in order. */
    method WriteLine(grid: GridMap, points: seq<Cell>, spx: real, spy: real)
      requires |points| > 0
      modifies grid
      ensures grid.cells == WriteBeam(old(grid.cells), points, Point2D(spx, spy))
    {
      grid.SetValue(points[|points| - 1], Occupancy(1.0, 1.0, spx, spy));
      ghost var hit := grid.cells;
      var k := 0;
      while k < |points| - 1
        invariant 0 <= k <= |points| - 1
        invariant grid.cells == MarkFree(hit, points[..k])
      {
        grid.SetValue(points[k], Occupancy(0.0, 1.0, 0.0, 0.0));
        assert points[..k + 1][..k] == points[..k];
        k := k + 1;
      }
      assert points[..k] == FreePart(points);
    }

    /** processScan: optimise from the initial pose; when the refined score
        exceeds minRegScore, or on the first scan, register the scan at the
        refined pose, report the pose change and clear the first-scan flag;
        otherwise leave the grid and the flag alone and report a zero change.
        Either way the refined pose's likelihood is returned. */
    method ProcessScan(initPose: RobotPose, scan: seq<Beam>, grid: GridMap, line: LineFn, ghost sc: Scorer, ghost fuel: nat)
      returns (likelihood: real, poseDelta: RobotPose)
      requires ScoresAs(sc, Context(grid.View(), scan))
      requires Run(sc, cfg, Start(sc, cfg, initPose), fuel).Some?
      modifies this, angleCache`sinTheta, angleCache`cosTheta, grid
      ensures var r := Run(sc, cfg, Start(sc, cfg, initPose), fuel).value;
        var accepted := r.bestScore > cfg.minRegScore || old(firstScan);
        && likelihood == r.likelihood
        && (accepted ==>
              && grid.cells == Registered(old(grid.cells), SweepAt(grid, r.pose, scan, line), BeamsEnd(|scan|, cfg.laserScanMargin))
              && poseDelta == RobotPose(r.pose.x - initPose.x, r.pose.y - initPose.y, r.pose.theta - initPose.theta)
              && !firstScan)
        && (!accepted ==> grid.cells == old(grid.cells) && poseDelta == ZeroPose && firstScan == old(firstScan))
    {
      poseDelta := ZeroPose;
      var refinedScore, refinedPose, refinedLikelihood := Optimize(initPose, scan, grid.View(), sc, fuel);
      if refinedScore > cfg.minRegScore || firstScan {
        RegisterScan(refinedPose, scan, grid, line);
        poseDelta := RobotPose(refinedPose.x - initPose.x, refinedPose.y - initPose.y, refinedPose.theta - initPose.theta);
        firstScan := false;
      }
      likelihood := refinedLikelihood;
    }
  }
}
