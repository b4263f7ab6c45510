/** What filling the gaps achieves: which frames are covered, and that the boxes put in cover a face
    that moves steadily. */
module Coverage {
  import opened Tracking

  ghost function First(hist: Track): (f: nat)
    requires hist != map[]
    ensures f in hist && forall g: nat :: g in hist ==> f <= g
  {
    var frames := InOrder(hist);
    NothingObserved(hist);
    assert frames[0] in frames;
    assert forall g: nat :: g in frames ==> frames[0] <= g;
    frames[0]
  }

  ghost function Last(hist: Track): (f: nat)
    requires hist != map[]
    ensures f in hist && forall g: nat :: g in hist ==> g <= f
  {
    var frames := InOrder(hist);
    NothingObserved(hist);
    LastIsLargest(frames);
    assert frames[|frames| - 1] in frames;
    frames[|frames| - 1]
  }

  lemma NothingObserved(hist: Track)
    ensures InOrder(hist) == [] <==> hist == map[]
  {
    var frames := InOrder(hist);
    if hist != map[] {
      var f :| f in hist;
      assert f in frames;
    }
    if frames != [] {
      assert frames[0] in frames;
    }
  }

  /** Which frames get a box: exactly those inside the video after the first observation where
      nothing was observed, up to the end of the lingering. */
  lemma EveryGapIsCovered(hist: Track, total: nat, linger: int, f: nat)
    requires hist != map[]
    ensures |Adds(hist, total, linger, f)| == 1
            <==> f < total && f !in hist && First(hist) < f && (f < Last(hist) || f <= Last(hist) + linger)
  {
  }

  /** No frame is left without a box of the track, from the first observation to the end of the
      lingering. */
  lemma NoFrameIsBare(hist: Track, total: nat, linger: nat, f: nat)
    requires hist != map[] && First(hist) <= f <= Last(hist) + linger && f < total
    ensures f in hist || |Adds(hist, total, linger, f)| == 1
  {
  }

  /** All boxes of some frames. */
  ghost function Total(boxes: seq<seq<Box>>): nat {
    if boxes == [] then 0 else Total(boxes[..|boxes| - 1]) + |boxes[|boxes| - 1]|
  }

  lemma {:induction false} DifferenceBelow(was: seq<seq<Box>>, now: seq<seq<Box>>, tracks: seq<Track>, linger: int, added: nat,
                                           end: nat)
    requires Interpolated(was, now, tracks, linger, added) && end <= |was|
    ensures |now| == |was| && Total(now[..end]) == Total(was[..end]) + AddedBelow(tracks, |was|, linger, end)
  {
    hide AddedAt;
    if end > 0 {
      DifferenceBelow(was, now, tracks, linger, added, end - 1);
      assert now[..end][..end - 1] == now[..end - 1] && was[..end][..end - 1] == was[..end - 1];
      assert now[end - 1] == was[end - 1] + AddedAt(tracks, |was|, linger, end - 1);
    }
  }

  /** The number returned is that of the boxes put in; those that were there are kept, in front. */
  lemma AddedIsTheDifference(was: seq<seq<Box>>, now: seq<seq<Box>>, tracks: seq<Track>, linger: int, added: nat)
    requires Interpolated(was, now, tracks, linger, added)
    ensures |now| == |was| && Total(now) == Total(was) + added
    ensures forall f: nat :: f < |was| ==> was[f] <= now[f]
  {
    hide AddedAt;
    DifferenceBelow(was, now, tracks, linger, added, |was|);
    assert now[..|was|] == now && was[..|was|] == was;
  }

  // ------------------------------------------------------------------ between two observations

  // Products are handled by few small lemmas; elsewhere they stay closed.

  function Times(x: real, y: real): real {
    x * y
  }

  lemma Distribute(x: real, y: real, t: real)
    ensures Times(x, t) - Times(y, t) == Times(x - y, t)
  {
  }

  lemma Commute(x: real, y: real)
    ensures Times(x, y) == Times(y, x)
  {
  }

  lemma ProductSign(x: real, t: real)
    requires t > 0.0
    ensures x > 0.0 ==> Times(x, t) > 0.0
    ensures x >= 0.0 ==> Times(x, t) >= 0.0
  {
  }

  /** Where an edge is that moves steadily. */
  function At(p: real, d: real, f: real): real {
    p + Times(d, f)
  }

  /** A box whose edges move steadily, each in its own way. */
  function Moving(p: Box, d: Box, f: nat): Box {
    var t := f as real;
    Box(At(p.x1, d.x1, t), At(p.y1, d.y1, t), At(p.x2, d.x2, t), At(p.y2, d.y2, t))
  }

  lemma Share(a: nat, b: nat, f: nat)
    requires a < f < b
    ensures var t := (f - a) as real / (b - a) as real;
            0.0 < t < 1.0 && Times(b as real - a as real, t) == f as real - a as real
  {
  }

  lemma EdgeOnLine(p: real, d: real, a: real, b: real, f: real, t: real)
    requires Times(b - a, t) == f - a
    ensures Between(At(p, d, a), At(p, d, b), t) == At(p, d, f)
  {
  }

  /** The box in a gap is the true one for anything that moves steadily from one observation to the
      next. */
  lemma GapBoxIsExact(p: Box, d: Box, a: nat, b: nat, f: nat)
    requires a < f < b
    ensures GapBox(Moving(p, d, a), Moving(p, d, b), a, b, f) == Moving(p, d, f)
  {
    var t := (f - a) as real / (b - a) as real;
    Share(a, b, f);
    hide Between, At, Times;
    var ra, rb, rf := a as real, b as real, f as real;
    EdgeOnLine(p.x1, d.x1, ra, rb, rf, t);
    EdgeOnLine(p.y1, d.y1, ra, rb, rf, t);
    EdgeOnLine(p.x2, d.x2, ra, rb, rf, t);
    EdgeOnLine(p.y2, d.y2, ra, rb, rf, t);
  }

  lemma Mix(a: real, b: real, t: real)
    ensures Between(a, b, t) == Times(a, 1.0 - t) + Times(b, t)
  {
  }

  lemma BetweenBounds(a: real, b: real, c: real, d: real, t: real)
    requires 0.0 < t < 1.0
    ensures a < c && b < d ==> Between(a, b, t) < Between(c, d, t)
    ensures a <= c && b <= d ==> Between(a, b, t) <= Between(c, d, t)
  {
    Mix(a, b, t);
    Mix(c, d, t);
    hide Between, Times;
    Distribute(c, a, 1.0 - t);
    Distribute(d, b, t);
    ProductSign(c - a, 1.0 - t);
    ProductSign(d - b, t);
  }

  /** Of some area. */
  ghost predicate Proper(b: Box) {
    b.x1 < b.x2 && b.y1 < b.y2
  }

  ghost predicate InFrame(b: Box, w: real, h: real) {
    0.0 <= b.x1 && b.x2 <= w && 0.0 <= b.y1 && b.y2 <= h
  }

  lemma BetweenConstant(c: real, t: real)
    ensures Between(c, c, t) == c
  {
  }

  /** Between two proper boxes in the frame there are only proper boxes in the frame. */
  lemma GapBoxIsProper(p: Box, q: Box, a: nat, b: nat, f: nat, w: real, h: real)
    requires a < f < b && Proper(p) && Proper(q) && InFrame(p, w, h) && InFrame(q, w, h)
    ensures Proper(GapBox(p, q, a, b, f)) && InFrame(GapBox(p, q, a, b, f), w, h)
  {
    var t := (f - a) as real / (b - a) as real;
    Share(a, b, f);
    hide Between;
    BetweenBounds(p.x1, q.x1, p.x2, q.x2, t);
    BetweenBounds(p.y1, q.y1, p.y2, q.y2, t);
    BetweenConstant(0.0, t);
    BetweenConstant(w, t);
    BetweenConstant(h, t);
    BetweenBounds(0.0, 0.0, p.x1, q.x1, t);
    BetweenBounds(0.0, 0.0, p.y1, q.y1, t);
    BetweenBounds(p.x2, q.x2, w, w, t);
    BetweenBounds(p.y2, q.y2, h, h, t);
  }

  // ------------------------------------------------------------------ after the last observation

  ghost predicate Contains(outer: Box, inner: Box) {
    outer.x1 <= inner.x1 && inner.x2 <= outer.x2 && outer.y1 <= inner.y1 && inner.y2 <= outer.y2
  }

  function Shifted(b: Box, dx: real, dy: real): Box {
    Box(b.x1 + dx, b.y1 + dy, b.x2 + dx, b.y2 + dy)
  }

  /** The kept box contains the last one wherever it may have gone at the recent speed, and in no
      direction farther. */
  lemma LingerCoversMotion(p: Box, v: (real, real), k: nat, dx: real, dy: real)
    ensures Contains(LingerBox(p, v, k), Shifted(p, dx, dy)) <==> Abs(dx) <= v.0 * k as real && Abs(dy) <= v.1 * k as real
  {
  }

  /** The kept boxes only grow. */
  lemma LingerBoxesAreNested(p: Box, v: (real, real), k: nat, m: nat)
    requires v.0 >= 0.0 && v.1 >= 0.0 && k <= m
    ensures Contains(LingerBox(p, v, m), LingerBox(p, v, k)) && Contains(LingerBox(p, v, k), p)
  {
  }

  /** Where the last six observations begin. */
  ghost function LastSix(frames: seq<nat>): (i: nat)
    ensures i <= |frames|
  {
    if |frames| > 6 then |frames| - 6 else 0
  }

  /** In its last six observations the box moved without changing its size, by the same way in each
      frame. */
  ghost predicate Steady(hist: Track, p: Box, dx: real, dy: real) {
    var frames := InOrder(hist);
    forall k :: LastSix(frames) <= k < |frames| ==>
      frames[k] in hist && hist[frames[k]] == Moving(p, Box(dx, dy, dx, dy), frames[k])
  }

  ghost function MiddleX(b: Box): real {
    (b.x1 + b.x2) / 2.0
  }

  ghost function MiddleY(b: Box): real {
    (b.y1 + b.y2) / 2.0
  }

  lemma LatelyIsLastSix(frames: seq<nat>)
    requires IsSorted(frames) && |frames| >= 2
    ensures var pts, i := Lately(frames), LastSix(frames);
            |pts| >= 2 && pts[0] == frames[i] && pts[|pts| - 1] == frames[|frames| - 1]
            && frames[i] < frames[|frames| - 1]
  {
  }

  lemma PaceOfBoxes(p: Box, q: Box, frames: nat)
    requires frames > 0
    ensures Pace(p.x1, p.x2, q.x1, q.x2, frames) == Abs(MiddleX(q) - MiddleX(p)) / frames as real
    ensures Pace(p.y1, p.y2, q.y1, q.y2, frames) == Abs(MiddleY(q) - MiddleY(p)) / frames as real
  {
  }

  lemma SpeedOverLastSix(hist: Track, frames: seq<nat>)
    requires FramesOf(frames, hist) && |frames| >= 2
    ensures forall f :: f in frames ==> f in hist
    ensures var a, b := frames[LastSix(frames)], frames[|frames| - 1];
            && a < b && a in hist && b in hist
            && RecentSpeed(hist, frames) == (Pace(hist[a].x1, hist[a].x2, hist[b].x1, hist[b].x2, b - a),
                                             Pace(hist[a].y1, hist[a].y2, hist[b].y1, hist[b].y2, b - a))
  {
    hide Pace;
    LatelyIsLastSix(frames);
    assert frames[LastSix(frames)] in frames && frames[|frames| - 1] in frames;
  }

  /** The speed is measured from the first of the last six observations to the last one, whatever lies
      between, by how far the middle of the box went; with less than two observations it is 0. */
  lemma SpeedIsMeasured(hist: Track, frames: seq<nat>)
    requires FramesOf(frames, hist)
    ensures forall f :: f in frames ==> f in hist
    ensures |frames| < 2 ==> RecentSpeed(hist, frames) == (0.0, 0.0)
    ensures |frames| >= 2 ==>
              var v, a, b := RecentSpeed(hist, frames), frames[LastSix(frames)], frames[|frames| - 1];
              && a < b && a in hist && b in hist
              && v.0 == Abs(MiddleX(hist[b]) - MiddleX(hist[a])) / (b - a) as real
              && v.1 == Abs(MiddleY(hist[b]) - MiddleY(hist[a])) / (b - a) as real
  {
    if |frames| >= 2 {
      SpeedOverLastSix(hist, frames);
      hide RecentSpeed, Abs, LastSix, FramesOf, Pace, MiddleX, MiddleY;
      var a, b := frames[LastSix(frames)], frames[|frames| - 1];
      PaceOfBoxes(hist[a], hist[b], b - a);
    } else {
      hide Pace;
    }
  }

  lemma MiddleMoves(lo: real, hi: real, x: real, y: real)
    ensures (lo + y + (hi + y)) / 2.0 - (lo + x + (hi + x)) / 2.0 == y - x
  {
  }

  lemma AbsOfProduct(d: real, n: real)
    requires n > 0.0
    ensures Abs(Times(d, n)) / n == Abs(d)
  {
  }

  lemma SteadyPace(lo: real, hi: real, d: real, a: nat, b: nat)
    requires a < b
    ensures Pace(At(lo, d, a as real), At(hi, d, a as real), At(lo, d, b as real), At(hi, d, b as real), b - a) == Abs(d)
  {
    var n := (b - a) as real;
    assert b as real - a as real == n;
    AbsOfProduct(d, n);
    hide Times, Abs;
    Distribute(b as real, a as real, d);
    Commute(b as real, d);
    Commute(a as real, d);
    Commute(n, d);
    MiddleMoves(lo, hi, Times(d, a as real), Times(d, b as real));
  }

  /** The measured speed of a steady motion is its speed. */
  lemma SpeedOfSteadyMotion(hist: Track, p: Box, dx: real, dy: real)
    requires Steady(hist, p, dx, dy) && |InOrder(hist)| >= 2
    ensures RecentSpeed(hist, InOrder(hist)) == (Abs(dx), Abs(dy))
  {
    var frames := InOrder(hist);
    LatelyIsLastSix(frames);
    var a, b := frames[LastSix(frames)], frames[|frames| - 1];
    assert a in frames && b in frames;
    hide Pace, Abs, At;
    SteadyPace(p.x1, p.x2, dx, a, b);
    SteadyPace(p.y1, p.y2, dy, a, b);
  }

  lemma LingerCoversSlower(p: Box, v: (real, real), k: nat, sx: real, sy: real)
    requires Abs(sx) <= v.0 && Abs(sy) <= v.1
    ensures Contains(LingerBox(p, v, k), Shifted(p, sx * k as real, sy * k as real))
  {
    Scaled(sx, v.0, k);
    Scaled(sy, v.1, k);
    LingerCoversMotion(p, v, k, sx * k as real, sy * k as real);
  }

  /** A face that was lately seen to move steadily, and goes on like that or turns about, stays
      inside the kept box. */
  lemma LingerCoversSteadyMotion(hist: Track, p: Box, dx: real, dy: real, k: nat, sx: real, sy: real)
    requires Steady(hist, p, dx, dy) && |InOrder(hist)| >= 2
    requires Abs(sx) <= Abs(dx) && Abs(sy) <= Abs(dy)
    ensures var frames := InOrder(hist);
            var last := frames[|frames| - 1];
            last in hist && Contains(LingerBox(hist[last], RecentSpeed(hist, frames), k),
                                     Shifted(hist[last], sx * k as real, sy * k as real))
  {
    var frames := InOrder(hist);
    var last := frames[|frames| - 1];
    assert last in frames;
    SpeedOfSteadyMotion(hist, p, dx, dy);
    hide RecentSpeed, LingerBox, Shifted, Abs, Steady, Contains, Lately;
    LingerCoversSlower(hist[last], RecentSpeed(hist, frames), k, sx, sy);
  }

  lemma Scaled(s: real, v: real, k: nat)
    requires Abs(s) <= v
    ensures Abs(s * k as real) <= v * k as real
  {
    var n := k as real;
    if s < 0.0 {
      assert -(s * n) == (-s) * n;
      assert (-s) * n <= v * n;
      assert (-s) * n >= 0.0;
    } else {
      assert s * n >= 0.0;
    }
  }
}
