// What ScanMatcher::optimize computes: rounds of six axis moves around the
// current pose, each adopted only when it scores strictly better than the
// best so far; the step sizes halve whenever a round starts without the
// previous round having improved, and the search stops once a round brings no
// improvement after at least recursiveIterations halvings.

module HillClimb {
  import opened Common
  import opened MatchScore

  datatype Move = Front | Back | Left | Right | TurnLeft | TurnRight | Done

  /** The move tried after `mv` within a round. */
  function NextMove(mv: Move): Move
    requires mv != Done
  {
    match mv
    case Front => Back
    case Back => Left
    case Left => Right
    case Right => TurnLeft
    case TurnLeft => TurnRight
    case TurnRight => Done
  }

  /** How many moves are still to be tried when `mv` is next. */
  function MovesLeft(mv: Move): (n: nat)
    ensures n == 0 <==> mv == Done
  {
    match mv
    case Front => 6
    case Back => 5
    case Left => 4
    case Right => 3
    case TurnLeft => 2
    case TurnRight => 1
    case Done => 0
  }

  /** The pose a move tries: one coordinate shifted by one step, linear for
      the four translations and angular for the two turns. */
  function Moved(pose: RobotPose, mv: Move, ldelta: real, adelta: real): (r: RobotPose)
    requires mv != Done
    ensures (mv == Front || mv == Back) ==>
      r.y == pose.y && r.theta == pose.theta && (r.x == pose.x + ldelta || r.x == pose.x - ldelta)
    ensures (mv == Left || mv == Right) ==>
      r.x == pose.x && r.theta == pose.theta && (r.y == pose.y + ldelta || r.y == pose.y - ldelta)
    ensures (mv == TurnLeft || mv == TurnRight) ==>
      r.x == pose.x && r.y == pose.y && (r.theta == pose.theta + adelta || r.theta == pose.theta - adelta)
  {
    match mv
    case Front => pose.(x := pose.x + ldelta)
    case Back => pose.(x := pose.x - ldelta)
    case Left => pose.(y := pose.y - ldelta)
    case Right => pose.(y := pose.y + ldelta)
    case TurnLeft => pose.(theta := pose.theta + adelta)
    case TurnRight => pose.(theta := pose.theta - adelta)
  }

  /** A pose with its score and likelihood. */
  datatype Candidate = Candidate(pose: RobotPose, score: real, likelihood: real)

  /** The scorer: a pose's score, likelihood and beam count. */
  type Scorer = RobotPose -> Tally

  /** score never returns a negative value. */
  ghost predicate NonNegativeScores(sc: Scorer)
  {
    forall p :: 0.0 <= sc(p).score
  }

  /** Turning a pose does not change its score. */
  ghost predicate HeadingBlind(sc: Scorer)
  {
    forall p: RobotPose, t: real :: sc(p.(theta := t)) == sc(p)
  }

  /** The candidate a move proposes from `base`. */
  function CandidateAt(sc: Scorer, base: RobotPose, ldelta: real, adelta: real, mv: Move): Candidate
    requires mv != Done
  {
    var pose := Moved(base, mv, ldelta, adelta);
    Candidate(pose, sc(pose).score, sc(pose).likelihood)
  }

  /** The moves from `mv` on, each adopted only when it scores strictly
      better than the best so far. */
  function TryMoves(sc: Scorer, base: RobotPose, ldelta: real, adelta: real, mv: Move, best: Candidate): Candidate
    decreases MovesLeft(mv)
  {
    if mv == Done then best
    else
      var c := CandidateAt(sc, base, ldelta, adelta, mv);
      TryMoves(sc, base, ldelta, adelta, NextMove(mv), if c.score > best.score then c else best)
  }

  /** The next move has one move fewer left, and only one move has a given
      number of moves left. */
  lemma MovesLeftStep(mv: Move)
    requires mv != Done
    ensures MovesLeft(NextMove(mv)) + 1 == MovesLeft(mv)
    ensures forall e :: MovesLeft(e) == MovesLeft(mv) ==> e == mv
  {
  }

  /** `m` is still to be tried when `mv` is next. */
  predicate Remaining(mv: Move, m: Move)
  {
    m != Done && MovesLeft(m) <= MovesLeft(mv)
  }

  /** The moves from `mv` on never lower the best so far, and the result is
      at least as good as every remaining move. */
  lemma {:induction false} TryMovesMaximal(sc: Scorer, base: RobotPose, ldelta: real, adelta: real, mv: Move, best: Candidate)
    ensures var r := TryMoves(sc, base, ldelta, adelta, mv, best);
      && best.score <= r.score
      && forall m :: Remaining(mv, m) ==> CandidateAt(sc, base, ldelta, adelta, m).score <= r.score
    decreases MovesLeft(mv)
  {
    if mv != Done {
      var c := CandidateAt(sc, base, ldelta, adelta, mv);
      TryMovesMaximal(sc, base, ldelta, adelta, NextMove(mv), if c.score > best.score then c else best);
    }
  }

  /** The moves from `mv` on return the best so far (`m` is Done), or the
      candidate of the remaining move `m`, which beats the best so far and
      every move tried before it. */
  lemma {:induction false} TryMovesChoice(sc: Scorer, base: RobotPose, ldelta: real, adelta: real, mv: Move, best: Candidate)
    returns (m: Move)
    ensures var r := TryMoves(sc, base, ldelta, adelta, mv, best);
      if m == Done then r == best
      else (Remaining(mv, m) && best.score < r.score && r == CandidateAt(sc, base, ldelta, adelta, m) &&
        forall e :: Remaining(mv, e) && MovesLeft(m) < MovesLeft(e) ==>
          CandidateAt(sc, base, ldelta, adelta, e).score < r.score)
    decreases MovesLeft(mv)
  {
    if mv == Done {
      m := Done;
    } else {
      var c := CandidateAt(sc, base, ldelta, adelta, mv);
      var best' := if c.score > best.score then c else best;
      var m' := TryMovesChoice(sc, base, ldelta, adelta, NextMove(mv), best');
      MovesLeftStep(mv);
      if m' != Done {
        m := m';
      } else if c.score > best.score {
        m := mv;
      } else {
        m := Done;
      }
    }
  }

  /** The candidate's score and likelihood are those of its pose. */
  ghost predicate Scored(sc: Scorer, c: Candidate)
  {
    c.score == sc(c.pose).score && c.likelihood == sc(c.pose).likelihood
  }

  /** Whatever the moves adopt carries its own pose's score and likelihood. */
  lemma {:induction false} TryMovesScored(sc: Scorer, base: RobotPose, ldelta: real, adelta: real, mv: Move, best: Candidate)
    requires Scored(sc, best)
    ensures Scored(sc, TryMoves(sc, base, ldelta, adelta, mv, best))
    decreases MovesLeft(mv)
  {
    if mv != Done {
      var c := CandidateAt(sc, base, ldelta, adelta, mv);
      TryMovesScored(sc, base, ldelta, adelta, NextMove(mv), if c.score > best.score then c else best);
    }
  }

  /** Moves that do not raise the score adopt nothing. */
  lemma {:induction false} TryMovesStill(sc: Scorer, base: RobotPose, ldelta: real, adelta: real, mv: Move, best: Candidate)
    ensures var r := TryMoves(sc, base, ldelta, adelta, mv, best);
      r.score <= best.score ==> r == best
    decreases MovesLeft(mv)
  {
    if mv != Done {
      var c := CandidateAt(sc, base, ldelta, adelta, mv);
      var best' := if c.score > best.score then c else best;
      TryMovesStill(sc, base, ldelta, adelta, NextMove(mv), best');
      TryMovesMaximal(sc, base, ldelta, adelta, NextMove(mv), best');
    }
  }

  /** A step size halved n times. */
  function Halved(step: real, n: nat): real
  {
    if n == 0 then step else 0.5 * Halved(step, n - 1)
  }

  /** The loop state of optimize: the current pose with its score and
      likelihood, bestScore (the score at the start of the last round, -1
      before the first), the halving count and the two step sizes. */
  datatype Climb = Climb(pose: RobotPose, currentScore: real, bestScore: real, likelihood: real,
                         iter: nat, ldelta: real, adelta: real)

  /** The state before the first round. */
  function Start(sc: Scorer, cfg: MatcherConfig, init: RobotPose): Climb
  {
    var t := sc(init);
    Climb(init, t.score, -1.0, t.likelihood, 0, cfg.linearStep, cfg.angularStep)
  }

  /** The loop condition. */
  predicate Continues(cfg: MatcherConfig, s: Climb)
  {
    s.currentScore > s.bestScore || s.iter < cfg.recursiveIterations
  }

  /** One round: halve the steps if the last round did not improve, then try
      the six moves around the current pose. */
  function Round(sc: Scorer, s: Climb): Climb
  {
    var halve := s.bestScore >= s.currentScore;
    var iter := if halve then s.iter + 1 else s.iter;
    var ld := if halve then s.ldelta * 0.5 else s.ldelta;
    var ad := if halve then s.adelta * 0.5 else s.adelta;
    var r := TryMoves(sc, s.pose, ld, ad, Front, Candidate(s.pose, s.currentScore, s.likelihood));
    Climb(r.pose, r.score, s.currentScore, r.likelihood, iter, ld, ad)
  }

  /** Rounds until the loop condition fails, or nothing when `fuel` rounds
      do not suffice. */
  function Run(sc: Scorer, cfg: MatcherConfig, s: Climb, fuel: nat): Option<Climb>
    decreases fuel
  {
    if !Continues(cfg, s) then Some(s)
    else if fuel == 0 then None
    else Run(sc, cfg, Round(sc, s), fuel - 1)
  }

  /** The loop of optimize driven by any step function in place of Round. */
  function Iterate(step: Climb -> Climb, cfg: MatcherConfig, s: Climb, fuel: nat): Option<Climb>
    decreases fuel
  {
    if !Continues(cfg, s) then Some(s)
    else if fuel == 0 then None
    else Iterate(step, cfg, step(s), fuel - 1)
  }

  /** `step` does what Round does, on every state Round is applied to. */
  ghost predicate StepsAs(step: Climb -> Climb, sc: Scorer)
  {
    forall s {:trigger Round(sc, s)} :: step(s) == Round(sc, s)
  }

  /** A step function that does what Round does. The loop of optimize is
      reasoned about through it, so that following the loop does not expand
      the six moves of every round along the way. */
  lemma RoundStep(sc: Scorer) returns (step: Climb -> Climb)
    ensures StepsAs(step, sc)
  {
    step := (s: Climb) => Round(sc, s);
  }

  /** Iterating a step that does what Round does is Run. */
  lemma {:induction false} IterateRuns(step: Climb -> Climb, sc: Scorer, cfg: MatcherConfig, s: Climb, fuel: nat)
    requires StepsAs(step, sc)
    ensures Iterate(step, cfg, s, fuel) == Run(sc, cfg, s, fuel)
    decreases fuel
  {
    if Continues(cfg, s) && fuel > 0 {
      assert step(s) == Round(sc, s);
      IterateRuns(step, sc, cfg, Round(sc, s), fuel - 1);
    }
  }

  /** A round spelled out: the halving decision, then the moves around the
      current pose from the halved or kept steps. */
  lemma RoundUnfold(sc: Scorer, s: Climb, iter: nat, ld: real, ad: real, best: Candidate)
    requires iter == (if s.bestScore >= s.currentScore then s.iter + 1 else s.iter)
    requires ld == (if s.bestScore >= s.currentScore then s.ldelta * 0.5 else s.ldelta)
    requires ad == (if s.bestScore >= s.currentScore then s.adelta * 0.5 else s.adelta)
    requires best == TryMoves(sc, s.pose, ld, ad, Front, Candidate(s.pose, s.currentScore, s.likelihood))
    ensures Round(sc, s) == Climb(best.pose, best.score, s.currentScore, best.likelihood, iter, ld, ad)
  {
  }

  /** What holds of every loop state: the score and likelihood are those of
      the current pose, bestScore never exceeds it, and the steps are the
      initial ones halved `iter` times. */
  ghost predicate Consistent(sc: Scorer, cfg: MatcherConfig, s: Climb)
  {
    && s.currentScore == sc(s.pose).score
    && s.likelihood == sc(s.pose).likelihood
    && s.bestScore <= s.currentScore
    && s.ldelta == Halved(cfg.linearStep, s.iter)
    && s.adelta == Halved(cfg.angularStep, s.iter)
  }

  /** After a round that did not improve, no move around the pose at the
      current steps scores better than the pose. */
  ghost predicate Settled(sc: Scorer, s: Climb)
  {
    s.bestScore == s.currentScore ==>
      forall m :: m != Done ==> CandidateAt(sc, s.pose, s.ldelta, s.adelta, m).score <= s.currentScore
  }

  /** The first state is consistent and always enters the loop, since a score
      is never negative. */
  lemma StartSpec(sc: Scorer, cfg: MatcherConfig, init: RobotPose)
    requires NonNegativeScores(sc)
    ensures Consistent(sc, cfg, Start(sc, cfg, init)) && Settled(sc, Start(sc, cfg, init))
    ensures Continues(cfg, Start(sc, cfg, init))
  {
  }

  /** A round from Front tries every move. */
  lemma FrontCoversAll(m: Move)
    requires m != Done
    ensures Remaining(Front, m)
  {
  }

  /** After a round that did not improve, no move at the round's steps beats
      the pose. */
  lemma RoundSettled(sc: Scorer, cfg: MatcherConfig, s: Climb)
    requires Consistent(sc, cfg, s)
    ensures Settled(sc, Round(sc, s))
  {
    var halve := s.bestScore >= s.currentScore;
    var ld := if halve then s.ldelta * 0.5 else s.ldelta;
    var ad := if halve then s.adelta * 0.5 else s.adelta;
    var best := Candidate(s.pose, s.currentScore, s.likelihood);
    var r := TryMoves(sc, s.pose, ld, ad, Front, best);
    var next := Round(sc, s);
    RoundUnfold(sc, s, if halve then s.iter + 1 else s.iter, ld, ad, r);
    if next.bestScore == next.currentScore {
      TryMovesStill(sc, s.pose, ld, ad, Front, best);
      TryMovesMaximal(sc, s.pose, ld, ad, Front, best);
      forall m | m != Done
        ensures CandidateAt(sc, next.pose, next.ldelta, next.adelta, m).score <= next.currentScore
      {
        FrontCoversAll(m);
      }
    }
  }

  /** The round's result carries its pose's score and likelihood, and its
      steps are the initial ones halved once per halving so far. */
  lemma RoundConsistent(sc: Scorer, cfg: MatcherConfig, s: Climb)
    requires Consistent(sc, cfg, s)
    ensures Consistent(sc, cfg, Round(sc, s))
  {
    var halve := s.bestScore >= s.currentScore;
    var ld := if halve then s.ldelta * 0.5 else s.ldelta;
    var ad := if halve then s.adelta * 0.5 else s.adelta;
    var best := Candidate(s.pose, s.currentScore, s.likelihood);
    var r := TryMoves(sc, s.pose, ld, ad, Front, best);
    var next := Round(sc, s);
    RoundUnfold(sc, s, if halve then s.iter + 1 else s.iter, ld, ad, r);
    TryMovesMaximal(sc, s.pose, ld, ad, Front, best);
    TryMovesScored(sc, s.pose, ld, ad, Front, best);
    if halve {
      assert next.iter == s.iter + 1;
      assert Halved(cfg.linearStep, s.iter + 1) == 0.5 * Halved(cfg.linearStep, s.iter);
      assert Halved(cfg.angularStep, s.iter + 1) == 0.5 * Halved(cfg.angularStep, s.iter);
    }
  }

  /** A round keeps the state consistent and settled; bestScore becomes the
      score the round started from, the score never drops, the pose changes
      only with a strict improvement, and the steps halve exactly when the
      previous round brought no improvement. */
  lemma RoundSpec(sc: Scorer, cfg: MatcherConfig, s: Climb)
    requires Consistent(sc, cfg, s)
    ensures var r := Round(sc, s);
      && Consistent(sc, cfg, r) && Settled(sc, r)
      && r.bestScore == s.currentScore
      && s.currentScore <= r.currentScore
      && (r.currentScore == s.currentScore ==> r.pose == s.pose && r.likelihood == s.likelihood)
      && r.iter == (if s.bestScore == s.currentScore then s.iter + 1 else s.iter)
  {
    var halve := s.bestScore >= s.currentScore;
    var ld := if halve then s.ldelta * 0.5 else s.ldelta;
    var ad := if halve then s.adelta * 0.5 else s.adelta;
    var best := Candidate(s.pose, s.currentScore, s.likelihood);
    var r := TryMoves(sc, s.pose, ld, ad, Front, best);
    RoundUnfold(sc, s, if halve then s.iter + 1 else s.iter, ld, ad, r);
    TryMovesMaximal(sc, s.pose, ld, ad, Front, best);
    TryMovesStill(sc, s.pose, ld, ad, Front, best);
    RoundConsistent(sc, cfg, s);
    RoundSettled(sc, cfg, s);
  }

  /** When the search ends, its state is consistent, the loop condition has
      failed (so bestScore equals the final score and at least
      recursiveIterations halvings happened), no move at the final steps
      improves on the final pose, and the score never dropped. */
  lemma {:induction false} RunSpec(sc: Scorer, cfg: MatcherConfig, s: Climb, fuel: nat)
    requires Consistent(sc, cfg, s) && Settled(sc, s)
    requires Run(sc, cfg, s, fuel).Some?
    ensures var r := Run(sc, cfg, s, fuel).value;
      && Consistent(sc, cfg, r) && Settled(sc, r)
      && r.bestScore == r.currentScore
      && r.iter >= cfg.recursiveIterations
      && (forall m :: m != Done ==> CandidateAt(sc, r.pose, r.ldelta, r.adelta, m).score <= r.currentScore)
      && s.currentScore <= r.currentScore
    decreases fuel
  {
    if Continues(cfg, s) {
      RoundSpec(sc, cfg, s);
      RunSpec(sc, cfg, Round(sc, s), fuel - 1);
    }
  }

  /** When the heading does not affect the score, both turns score exactly
      what the pose they turn scores. */
  lemma TurnsKeepScore(sc: Scorer, pose: RobotPose, ldelta: real, adelta: real)
    requires HeadingBlind(sc)
    ensures CandidateAt(sc, pose, ldelta, adelta, TurnLeft).score == sc(pose).score
    ensures CandidateAt(sc, pose, ldelta, adelta, TurnRight).score == sc(pose).score
  {
    assert Moved(pose, TurnLeft, ldelta, adelta) == pose.(theta := pose.theta + adelta);
    assert Moved(pose, TurnRight, ldelta, adelta) == pose.(theta := pose.theta - adelta);
  }

  /** When the heading does not affect the score (no laser offset), a turn
      never scores better than the pose it turns, so a round never adopts one
      and the heading stays. */
  lemma RoundKeepsHeading(sc: Scorer, cfg: MatcherConfig, s: Climb)
    requires Consistent(sc, cfg, s) && HeadingBlind(sc)
    ensures Round(sc, s).pose.theta == s.pose.theta
  {
    var halve := s.bestScore >= s.currentScore;
    var ld := if halve then s.ldelta * 0.5 else s.ldelta;
    var ad := if halve then s.adelta * 0.5 else s.adelta;
    var best := Candidate(s.pose, s.currentScore, s.likelihood);
    var r := TryMoves(sc, s.pose, ld, ad, Front, best);
    RoundUnfold(sc, s, if halve then s.iter + 1 else s.iter, ld, ad, r);
    var m := TryMovesChoice(sc, s.pose, ld, ad, Front, best);
    TurnsKeepScore(sc, s.pose, ld, ad);
    assert m != TurnLeft && m != TurnRight;
  }

  /** When the heading does not affect the score, the refined pose keeps the
      initial heading. */
  lemma {:induction false} RunKeepsHeading(sc: Scorer, cfg: MatcherConfig, s: Climb, fuel: nat)
    requires Consistent(sc, cfg, s) && HeadingBlind(sc)
    requires Run(sc, cfg, s, fuel).Some?
    ensures Run(sc, cfg, s, fuel).value.pose.theta == s.pose.theta
    decreases fuel
  {
    if Continues(cfg, s) {
      RoundSpec(sc, cfg, s);
      RoundKeepsHeading(sc, cfg, s);
      RunKeepsHeading(sc, cfg, Round(sc, s), fuel - 1);
    }
  }
}
