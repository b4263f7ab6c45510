/** From the detector's square to the hidden pixels: which boxes the guards of the methods hold back. */
module Exposure {
  import opened Basics
  import opened Tracking
  import opened Coverage
  import opened Geometry
  import opened Masking

  /** The box meets the part of the square that shows the frame. */
  ghost predicate Shown(b: Box, l: Layout, w: int, h: int) {
    && b.x2 > l.left as real && b.x1 < w as real * l.r + l.left as real
    && b.y2 > l.top as real && b.y1 < h as real * l.r + l.top as real
  }

  /** A box with an area, inside the frame. */
  ghost predicate Usable(b: Box, w: int, h: int) {
    Proper(b) && InFrame(b, w as real, h as real)
  }

  /** A box with an area, some of it in the frame. */
  ghost predicate Visible(b: Box, w: int, h: int) {
    Proper(b) && MeetsFrame(b, w, h)
  }

  lemma UsableIsVisible(b: Box, w: int, h: int)
    requires Usable(b, w, h)
    ensures Visible(b, w, h)
  {
  }

  lemma VisibleIsTaken(b: Box, pad: real, w: int, h: int)
    requires Visible(b, w, h) && pad >= 0.0 && w > 0 && h > 0
    ensures !IsSkipped(PadBox(b, pad, w, h))
  {
    FaceIsTakenIn(b, b, pad, w, h);
  }

  // ------------------------------------------------------------------ what the detector finds

  /** Nothing is left of an interval that is rounded outwards. */
  ghost predicate IsEmpty(lo: real, hi: real, limit: int) {
    Outward(lo, hi, limit).1 <= Outward(lo, hi, limit).0
  }

  lemma SkippedWhenEmpty(b: Box, pad: real, w: int, h: int)
    ensures var p := Padded(b, pad);
            IsSkipped(PadBox(b, pad, w, h)) <==> IsEmpty(p.x1, p.x2, w) || IsEmpty(p.y1, p.y2, h)
  {
    hide Outward, Padded;
  }

  lemma PaddingKeepsFlat(b: Box, pad: real)
    ensures b.x1 == b.x2 ==> Padded(b, pad).x1 == Padded(b, pad).x2 == b.x1
    ensures b.y1 == b.y2 ==> Padded(b, pad).y1 == Padded(b, pad).y2 == b.y1
  {
  }

  lemma BorderIsEmpty(edge: real, limit: int)
    requires limit > 0 && (edge == 0.0 || edge == limit as real)
    ensures IsEmpty(edge, edge, limit)
  {
  }

  /** An interval that has lost its length lies on a border of the frame. */
  lemma FlatOnBorder(x: real, y: real, pad: int, r: real, limit: int)
    requires r > 0.0 && limit > 0 && x < y && Back(x, pad, r, limit) >= Back(y, pad, r, limit)
    ensures Back(x, pad, r, limit) == Back(y, pad, r, limit)
    ensures Back(x, pad, r, limit) == 0.0 || Back(x, pad, r, limit) == limit as real
  {
    assert (x - pad as real) / r < (y - pad as real) / r;
  }

  /** A box found in the square keeps an area in the frame exactly when it meets what is shown. */
  lemma FoundBoxIsUsable(b: Box, l: Layout, w: int, h: int)
    requires Proper(b) && l.r > 0.0 && w > 0 && h > 0
    ensures Usable(BackBox(b, l, w, h), w, h) <==> Shown(b, l, w, h)
  {
    hide Back;
    BoxesStayInFrame(b, w, h, l);
    BackKeepsLength(b.x1, b.x2, l.left, l.r, w);
    BackKeepsLength(b.y1, b.y2, l.top, l.r, h);
  }

  /** The guards hold back, of all that the detector finds, exactly what lies outside the frame. */
  lemma GuardsHoldBackWhatIsOutside(b: Box, l: Layout, pad: real, w: int, h: int)
    requires Proper(b) && l.r > 0.0 && w > 0 && h > 0 && pad >= 0.0
    ensures IsSkipped(PadBox(BackBox(b, l, w, h), pad, w, h)) <==> !Shown(b, l, w, h)
  {
    var c := BackBox(b, l, w, h);
    SkippedWhenEmpty(c, pad, w, h);
    PaddingKeepsFlat(c, pad);
    if c.x1 >= c.x2 {
      FlatOnBorder(b.x1, b.x2, l.left, l.r, w);
      BorderIsEmpty(c.x1, w);
    }
    if c.y1 >= c.y2 {
      FlatOnBorder(b.y1, b.y2, l.top, l.r, h);
      BorderIsEmpty(c.y1, h);
    }
    BoxesStayInFrame(b, w, h, l);
    FoundBoxIsUsable(b, l, w, h);
    hide Back, Shown, IsEmpty, PadBox, IsSkipped, Padded;
    if Usable(c, w, h) {
      UsableIsVisible(c, w, h);
      VisibleIsTaken(c, pad, w, h);
    }
  }

  // ------------------------------------------------------------------ what the tracks add

  ghost predicate Observes(hist: Track, w: int, h: int) {
    forall f: nat :: f in hist ==> Usable(hist[f], w, h)
  }

  lemma ContainerIsVisible(outer: Box, inner: Box, w: int, h: int)
    requires Contains(outer, inner) && Visible(inner, w, h)
    ensures Visible(outer, w, h)
  {
  }

  /** Whatever a track adds has an area in the frame. */
  lemma AddedIsVisible(hist: Track, frames: seq<nat>, total: nat, linger: int, f: nat, w: int, h: int)
    requires FramesOf(frames, hist) && Observes(hist, w, h) && |Filled(hist, frames, total, linger, f)| == 1
    ensures Visible(Filled(hist, frames, total, linger, f)[0], w, h)
  {
    var i := Tracking.Before(frames, f);
    assert frames[i] in frames;
    var p := hist[frames[i]];
    if i + 1 < |frames| {
      assert frames[i + 1] in frames && frames[i + 1] != f;
      var q := hist[frames[i + 1]];
      hide GapBox;
      GapBoxIsProper(p, q, frames[i], frames[i + 1], f, w as real, h as real);
      UsableIsVisible(GapBox(p, q, frames[i], frames[i + 1], f), w, h);
    } else {
      var v := RecentSpeed(hist, frames);
      hide LingerBox, RecentSpeed;
      LingerBoxesAreNested(p, v, f - frames[i], f - frames[i]);
      UsableIsVisible(p, w, h);
      ContainerIsVisible(LingerBox(p, v, f - frames[i]), p, w, h);
    }
  }

  /** A box added to a frame comes from some track. */
  lemma {:induction false} AddedBySome(tracks: seq<Track>, total: nat, linger: int, f: nat, box: Box) returns (k: nat)
    requires box in AddedAt(tracks, total, linger, f)
    ensures k < |tracks| && Adds(tracks[k], total, linger, f) == [box]
  {
    hide Adds;
    k := |tracks| - 1;
    if box !in Adds(tracks[k], total, linger, f) {
      k := AddedBySome(tracks[..k], total, linger, f, box);
    }
  }

  lemma FromEitherPart(a: seq<Box>, b: seq<Box>, i: nat)
    requires i < |a + b|
    ensures (a + b)[i] in a || (a + b)[i] in b
  {
  }

  // ------------------------------------------------------------------ no box is skipped

  ghost predicate AllUsable(boxes: seq<seq<Box>>, w: int, h: int) {
    forall f: nat, i: nat :: f < |boxes| && i < |boxes[f]| ==> Usable(boxes[f][i], w, h)
  }

  /** The tracks hold boxes of the frames they name. */
  ghost predicate Observed(was: seq<seq<Box>>, tracks: seq<Track>) {
    forall k: nat, f: nat :: k < |tracks| && f in tracks[k] ==> f < |was| && tracks[k][f] in was[f]
  }

  lemma TracksObserve(was: seq<seq<Box>>, tracks: seq<Track>, k: nat, w: int, h: int)
    requires AllUsable(was, w, h) && Observed(was, tracks) && k < |tracks|
    ensures Observes(tracks[k], w, h)
  {
    forall f: nat | f in tracks[k] ensures Usable(tracks[k][f], w, h) {
      assert f < |was| && tracks[k][f] in was[f];
      var i: nat :| i < |was[f]| && was[f][i] == tracks[k][f];
    }
  }

  /** When every detection has its area in the frame, no box of any frame is held back, whether it was
      detected, put into a gap or kept after the last observation. */
  lemma NoBoxIsSkipped(was: seq<seq<Box>>, now: seq<seq<Box>>, tracks: seq<Track>, linger: int, added: nat,
                       f: nat, i: nat, pad: real, w: int, h: int)
    requires Interpolated(was, now, tracks, linger, added) && AllUsable(was, w, h) && Observed(was, tracks)
    requires f < |was| && i < |now[f]| && pad >= 0.0 && w > 0 && h > 0
    ensures Visible(now[f][i], w, h) && !IsSkipped(PadBox(now[f][i], pad, w, h))
  {
    hide Filled, Usable, Visible, PadBox;
    var box, more := now[f][i], AddedAt(tracks, |was|, linger, f);
    FrameOf(was, now, tracks, linger, added, f);
    FromEitherPart(was[f], more, i);
    if box in more {
      var k := AddedBySome(tracks, |was|, linger, f, box);
      TracksObserve(was, tracks, k, w, h);
      AddedIsVisible(tracks[k], InOrder(tracks[k]), |was|, linger, f, w, h);
    } else {
      UsableIsVisible(box, w, h);
    }
    VisibleIsTaken(box, pad, w, h);
  }

  /** All boxes of the frames come from the detector's square, and meet what is shown there. */
  ghost predicate Found(square: seq<seq<Box>>, was: seq<seq<Box>>, l: Layout, w: int, h: int) {
    && l.r > 0.0 && |was| == |square|
    && (forall f: nat :: f < |was| ==> |was[f]| == |square[f]|)
    && (forall f: nat, i: nat :: f < |was| && i < |was[f]| ==>
         Proper(square[f][i]) && Shown(square[f][i], l, w, h) && was[f][i] == BackBox(square[f][i], l, w, h))
  }

  /** The whole way: whatever the detector finds in the shown part of its square, and whatever is filled
      in between and behind, reaches the pixels. */
  lemma NothingFoundIsSkipped(square: seq<seq<Box>>, was: seq<seq<Box>>, now: seq<seq<Box>>, tracks: seq<Track>,
                              linger: int, added: nat, l: Layout, size: int, f: nat, i: nat, pad: real, w: int, h: int)
    requires w > 0 && h > 0 && size > 0 && pad >= 0.0
    requires Letterbox(w, h, size) == Success(l)
    requires Found(square, was, l, w, h) && Observed(was, tracks)
    requires Interpolated(was, now, tracks, linger, added) && f < |was| && i < |now[f]|
    ensures !IsSkipped(PadBox(now[f][i], pad, w, h))
  {
    hide Interpolated, Observed, PadBox, Shown, BackBox, Usable;
    forall g: nat, k: nat | g < |was| && k < |was[g]| ensures Usable(was[g][k], w, h) {
      FoundBoxIsUsable(square[g][k], l, w, h);
    }
    NoBoxIsSkipped(was, now, tracks, linger, added, f, i, pad, w, h);
  }
}
