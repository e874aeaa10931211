// The square-window minimum search that both scorers run around a beam's
// endpoint cell: offsets (a, b) with -w <= a, b <= w, visited with `a` in the
// outer loop and `b` in the inner one. Each offset yields either no candidate
// or a candidate distance; a candidate replaces the running best only when
// nothing was found yet or it is strictly smaller.

module Window {
  import opened Common

  /** The offset (a, b) lies in the (2w+1) x (2w+1) window. */
  ghost predicate InWindow(w: int, a: int, b: int)
  {
    -w <= a <= w && -w <= b <= w
  }

  /** The offset (a, b) lies in the window and is visited at or after (xx, yy). */
  ghost predicate Pending(w: int, xx: int, yy: int, a: int, b: int)
  {
    InWindow(w, a, b) && (a > xx || (a == xx && b >= yy))
  }

  /** The running best after considering a candidate. */
  function Keep(best: Option<real>, c: Option<real>): Option<real>
  {
    match c
    case None => best
    case Some(d) => if best.None? || d < best.value then Some(d) else best
  }

  /** The search result when the running best is `best` and the visit is about
      to handle offset (xx, yy). */
  function WindowMin(cand: (int, int) -> Option<real>, w: int, xx: int, yy: int, best: Option<real>): Option<real>
    decreases w + 1 - xx, w + 1 - yy
  {
    if xx > w then best
    else if yy > w then WindowMin(cand, w, xx + 1, -w, best)
    else WindowMin(cand, w, xx, yy + 1, Keep(best, cand(xx, yy)))
  }

  /** Visiting offset (xx, yy) of the window folds its candidate into the
      running best and moves on to the next offset of the row. */
  lemma WindowMinStep(cand: (int, int) -> Option<real>, w: int, xx: int, yy: int, best: Option<real>)
    requires xx <= w && yy <= w
    ensures WindowMin(cand, w, xx, yy, best) == WindowMin(cand, w, xx, yy + 1, Keep(best, cand(xx, yy)))
  {
  }

  /** What the remaining visit computes: nothing is found only when nothing
      was found before and no pending offset has a candidate; otherwise the
      result is the running best or a pending candidate, and it is at most the
      running best and every pending candidate. */
  lemma {:induction false} WindowMinFrom(cand: (int, int) -> Option<real>, w: int, xx: int, yy: int, best: Option<real>)
    requires -w <= xx && -w <= yy
    ensures var r := WindowMin(cand, w, xx, yy, best);
      && (r.None? <==> best.None? && forall a, b :: Pending(w, xx, yy, a, b) ==> cand(a, b).None?)
      && (r.Some? ==> (best.Some? && r.value == best.value) ||
                      exists a, b :: Pending(w, xx, yy, a, b) && cand(a, b) == Some(r.value))
      && (r.Some? && best.Some? ==> r.value <= best.value)
      && (forall a, b :: Pending(w, xx, yy, a, b) && cand(a, b).Some? ==> r.Some? && r.value <= cand(a, b).value)
    decreases w + 1 - xx, w + 1 - yy
  {
    if xx > w {
      assert forall a, b :: !Pending(w, xx, yy, a, b);
    } else if yy > w {
      WindowMinFrom(cand, w, xx + 1, -w, best);
      forall a, b ensures Pending(w, xx, yy, a, b) <==> Pending(w, xx + 1, -w, a, b) {}
    } else {
      var best' := Keep(best, cand(xx, yy));
      WindowMinFrom(cand, w, xx, yy + 1, best');
      forall a, b ensures Pending(w, xx, yy, a, b) <==> Pending(w, xx, yy + 1, a, b) || (a == xx && b == yy) {}
    }
  }

  /** The whole search: it finds nothing exactly when no offset of the window
      has a candidate, and otherwise returns the least candidate distance,
      which some offset of the window attains. */
  lemma WindowMinIsMinimum(cand: (int, int) -> Option<real>, w: int)
    ensures var r := WindowMin(cand, w, -w, -w, None);
      && (r.None? <==> forall a, b :: InWindow(w, a, b) ==> cand(a, b).None?)
      && (r.Some? ==> exists a, b :: InWindow(w, a, b) && cand(a, b) == Some(r.value))
      && (forall a, b :: InWindow(w, a, b) && cand(a, b).Some? ==> r.Some? && r.value <= cand(a, b).value)
  {
    WindowMinFrom(cand, w, -w, -w, None);
    forall a, b ensures Pending(w, -w, -w, a, b) <==> InWindow(w, a, b) {}
  }
}
