/** Hiding the boxes of a frame, and why no face that was found, or filled in, stays visible. */
module Masking {
  import opened Tracking
  import opened Coverage

  /** A region of whole pixels: from `x1` up to, not including, `x2`, and so for `y`. */
  datatype Region = Region(x1: int, y1: int, x2: int, y2: int)

  function Ceil(x: real): int {
    -(-x).Floor
  }

  /** Rounded outwards and kept inside the frame. */
  function Outward(lo: real, hi: real, size: int): (int, int) {
    ((if 0.0 < lo then lo else 0.0).Floor, Ceil(if hi < size as real then hi else size as real))
  }

  /** The box, grown on each side by `pad` times its size. */
  function Padded(b: Box, pad: real): Box {
    Grown(b, (b.x2 - b.x1) * pad, (b.y2 - b.y1) * pad)
  }

  function PadBox(b: Box, pad: real, w: int, h: int): Region {
    var p := Padded(b, pad);
    var (x1, x2) := Outward(p.x1, p.x2, w);
    var (y1, y2) := Outward(p.y1, p.y2, h);
    Region(x1, y1, x2, y2)
  }

  /** The methods do nothing with such a region. */
  predicate IsSkipped(r: Region) {
    r.x2 <= r.x1 || r.y2 <= r.y1
  }

  // ------------------------------------------------------------------ one direction

  lemma RegionStays(b: Box, pad: real, w: int, h: int)
    requires w >= 0 && h >= 0
    ensures var r := PadBox(b, pad, w, h); 0 <= r.x1 && r.x2 <= w && 0 <= r.y1 && r.y2 <= h
  {
  }

  // ------------------------------------------------------------------ boxes

  /** The box overlaps the frame. */
  ghost predicate MeetsFrame(b: Box, w: int, h: int) {
    b.x2 > 0.0 && b.x1 < w as real && b.y2 > 0.0 && b.y1 < h as real
  }

  /** The box overlaps the pixel. */
  ghost predicate Touches(b: Box, x: int, y: int) {
    b.x1 < (x + 1) as real && (x as real) < b.x2 && b.y1 < (y + 1) as real && (y as real) < b.y2
  }

  ghost predicate In(r: Region, x: int, y: int) {
    r.x1 <= x < r.x2 && r.y1 <= y < r.y2
  }

  lemma PaddingGrows(b: Box, pad: real)
    requires Proper(b) && pad >= 0.0
    ensures Contains(Padded(b, pad), b) && Proper(Padded(b, pad))
  {
  }

  /** Padding keeps the middle of the box and makes it longer by the same part in each direction. */
  lemma PaddingIsProportional(b: Box, pad: real)
    ensures var p := Padded(b, pad);
            && p.x1 + p.x2 == b.x1 + b.x2 && p.y1 + p.y2 == b.y1 + b.y2
            && p.x2 - p.x1 == (b.x2 - b.x1) * (1.0 + 2.0 * pad)
            && p.y2 - p.y1 == (b.y2 - b.y1) * (1.0 + 2.0 * pad)
  {
    Longer(b.x2 - b.x1, pad);
    Longer(b.y2 - b.y1, pad);
  }

  lemma Longer(n: real, pad: real)
    ensures n * (1.0 + 2.0 * pad) == n + n * pad + n * pad
  {
  }

  /** The guards of the methods hold back a proper box exactly when its padded box lies outside the
      frame; otherwise the region lies in the frame, and holds exactly the pixels that the padded
      box touches. */
  lemma RegionIsExact(b: Box, pad: real, w: int, h: int)
    requires Proper(b) && pad >= 0.0 && w > 0 && h > 0
    ensures var r := PadBox(b, pad, w, h);
            && (IsSkipped(r) <==> !MeetsFrame(Padded(b, pad), w, h))
            && (!IsSkipped(r) ==> 0 <= r.x1 < r.x2 <= w && 0 <= r.y1 < r.y2 <= h)
            && (!IsSkipped(r) ==>
                  forall x: int, y: int ::
                    In(r, x, y) <==> 0 <= x < w && 0 <= y < h && Touches(Padded(b, pad), x, y))
  {
  }

  /** No guard holds back a face in the frame, and no pixel of it is left out. */
  lemma FaceIsTakenIn(box: Box, face: Box, pad: real, w: int, h: int)
    requires Proper(face) && Contains(box, face) && MeetsFrame(face, w, h) && pad >= 0.0 && w > 0 && h > 0
    ensures !IsSkipped(PadBox(box, pad, w, h))
    ensures forall x: int, y: int :: 0 <= x < w && 0 <= y < h && Touches(face, x, y) ==> In(PadBox(box, pad, w, h), x, y)
  {
    RegionIsExact(box, pad, w, h);
    PaddingGrows(box, pad);
    hide Padded, PadBox;
  }

  // ------------------------------------------------------------------ a frame

  /** What can be seen of a pixel. */
  datatype Pixel = Clear(value: int) | Hidden

  /** One of the boxes, padded, touches the pixel. */
  ghost predicate Covered(boxes: seq<Box>, pad: real, w: int, h: int, x: int, y: int) {
    exists i :: 0 <= i < |boxes| && In(PadBox(boxes[i], pad, w, h), x, y)
  }

  /** Hides a region of the frame; rows come first. */
  method Hide(frame: array2<Pixel>, r: Region)
    requires IsSkipped(r) || (0 <= r.x1 && r.x2 <= frame.Length1 && 0 <= r.y1 && r.y2 <= frame.Length0)
    modifies frame
    ensures forall y, x :: 0 <= y < frame.Length0 && 0 <= x < frame.Length1 ==>
              frame[y, x] == if In(r, x, y) then Hidden else old(frame[y, x])
  {
    if r.x2 <= r.x1 || r.y2 <= r.y1 {
      return;
    }
    forall y, x | r.y1 <= y < r.y2 && r.x1 <= x < r.x2 {
      frame[y, x] := Hidden;
    }
  }

  /** Hides all boxes of a frame, in place: exactly the pixels that some padded box covers are
      hidden, and all others keep what they showed. */
  method Anonymize(frame: array2<Pixel>, boxes: seq<Box>, pad: real)
    modifies frame
    ensures forall y, x :: 0 <= y < frame.Length0 && 0 <= x < frame.Length1 ==>
              frame[y, x] == if Covered(boxes, pad, frame.Length1, frame.Length0, x, y) then Hidden else old(frame[y, x])
  {
    var w, h := frame.Length1, frame.Length0;
    for i := 0 to |boxes|
      invariant forall y, x :: 0 <= y < h && 0 <= x < w ==>
                  frame[y, x] == if Covered(boxes[..i], pad, w, h, x, y) then Hidden else old(frame[y, x])
    {
      RegionStays(boxes[i], pad, w, h);
      Hide(frame, PadBox(boxes[i], pad, w, h));
      forall y: int, x: int
        ensures Covered(boxes[..i + 1], pad, w, h, x, y)
                <==> Covered(boxes[..i], pad, w, h, x, y) || In(PadBox(boxes[i], pad, w, h), x, y)
      {
        OneMoreBox(boxes, i, pad, w, h, x, y);
      }
    }
    assert boxes[..|boxes|] == boxes;
  }

  lemma OneMoreBox(boxes: seq<Box>, i: nat, pad: real, w: int, h: int, x: int, y: int)
    requires i < |boxes|
    ensures Covered(boxes[..i + 1], pad, w, h, x, y)
            <==> Covered(boxes[..i], pad, w, h, x, y) || In(PadBox(boxes[i], pad, w, h), x, y)
  {
  }

  // ------------------------------------------------------------------ the boxes of all frames

  datatype Detection = Detection(box: Box, score: real)

  function BoxesOf(found: seq<Detection>): seq<Box> {
    seq(|found|, i requires 0 <= i < |found| => found[i].box)
  }

  function Merged(perFrame: seq<seq<Detection>>): seq<seq<Box>> {
    seq(|perFrame|, f requires 0 <= f < |perFrame| => BoxesOf(perFrame[f]))
  }

  /** All that is hidden in the frames: every detection, whatever the tracker made of it, and what
      the tracks fill in. */
  method CollectBoxes(perFrame: seq<seq<Detection>>, tracks: seq<Track>, interp: bool, linger: int)
    returns (dets: array<seq<Box>>, filled: nat)
    ensures fresh(dets) && dets.Length == |perFrame|
    ensures if interp then Interpolated(Merged(perFrame), dets[..], tracks, linger, filled)
            else dets[..] == Merged(perFrame) && filled == 0
    ensures forall f :: 0 <= f < |perFrame| ==>
              |dets[f]| >= |perFrame[f]| && forall i :: 0 <= i < |perFrame[f]| ==> dets[f][i] == perFrame[f][i].box
    ensures !interp ==> forall f :: 0 <= f < |perFrame| ==> |dets[f]| == |perFrame[f]|
  {
    dets := new seq<Box>[|perFrame|](_ => []);
    filled := 0;
    for f := 0 to |perFrame|
      invariant forall g :: 0 <= g < f ==> dets[g] == BoxesOf(perFrame[g])
      invariant forall g :: f <= g < |perFrame| ==> dets[g] == []
    {
      for i := 0 to |perFrame[f]|
        invariant dets[f] == BoxesOf(perFrame[f][..i])
        invariant forall g :: 0 <= g < f ==> dets[g] == BoxesOf(perFrame[g])
        invariant forall g :: f < g < |perFrame| ==> dets[g] == []
      {
        dets[f] := dets[f] + [perFrame[f][i].box];
      }
      assert perFrame[f][..|perFrame[f]|] == perFrame[f];
    }
    assert dets[..] == Merged(perFrame);
    if interp {
      filled := Interpolate(dets, tracks, linger);
    }
  }

  // ------------------------------------------------------------------ no face stays visible

  /** Every pixel of the frame that the face touches is covered. */
  ghost predicate FaceIsHidden(boxes: seq<Box>, face: Box, pad: real, w: int, h: int) {
    forall x: int, y: int :: 0 <= x < w && 0 <= y < h && Touches(face, x, y) ==> Covered(boxes, pad, w, h, x, y)
  }

  lemma BoxHidesFace(boxes: seq<Box>, i: nat, face: Box, pad: real, w: int, h: int)
    requires i < |boxes| && Proper(face) && Contains(boxes[i], face) && MeetsFrame(face, w, h)
    requires pad >= 0.0 && w > 0 && h > 0
    ensures FaceIsHidden(boxes, face, pad, w, h)
  {
    FaceIsTakenIn(boxes[i], face, pad, w, h);
  }

  lemma {:induction false} AddedIsThere(tracks: seq<Track>, k: nat, total: nat, linger: int, f: nat, box: Box)
    requires k < |tracks| && Adds(tracks[k], total, linger, f) == [box]
    ensures box in AddedAt(tracks, total, linger, f)
  {
    hide Adds;
    var n := |tracks| - 1;
    if k < n {
      AddedIsThere(tracks[..n], k, total, linger, f, box);
    }
  }

  lemma FrameOf(was: seq<seq<Box>>, now: seq<seq<Box>>, tracks: seq<Track>, linger: int, added: nat, f: nat)
    requires Interpolated(was, now, tracks, linger, added) && f < |was|
    ensures |now| == |was| && now[f] == was[f] + AddedAt(tracks, |was|, linger, f)
  {
  }

  lemma FindBehind(a: seq<Box>, b: seq<Box>, box: Box) returns (i: nat)
    requires box in b
    ensures i < |a + b| && (a + b)[i] == box
  {
    var m :| 0 <= m < |b| && b[m] == box;
    i := |a| + m;
  }

  lemma FilledBoxIsThere(was: seq<seq<Box>>, now: seq<seq<Box>>, tracks: seq<Track>, linger: int, added: nat,
                         k: nat, f: nat, box: Box) returns (i: nat)
    requires Interpolated(was, now, tracks, linger, added) && f < |was|
    requires k < |tracks| && Adds(tracks[k], |was|, linger, f) == [box]
    ensures |now| == |was| && i < |now[f]| && now[f][i] == box
  {
    hide Interpolated, Adds, AddedAt;
    FrameOf(was, now, tracks, linger, added, f);
    AddedIsThere(tracks, k, |was|, linger, f, box);
    i := FindBehind(was[f], AddedAt(tracks, |was|, linger, f), box);
  }

  /** A face the detector lost between two observations of its track, and that moved steadily from
      one to the other, is hidden all the same. */
  lemma LostFaceIsHidden(was: seq<seq<Box>>, now: seq<seq<Box>>, tracks: seq<Track>, linger: int, added: nat,
                         k: nat, n: nat, f: nat, p: Box, d: Box, pad: real, w: int, h: int)
    requires Interpolated(was, now, tracks, linger, added) && f < |was| && k < |tracks|
    requires var frames := InOrder(tracks[k]);
             n + 1 < |frames| && frames[n] < f < frames[n + 1]
             && frames[n] in tracks[k] && tracks[k][frames[n]] == Moving(p, d, frames[n])
             && frames[n + 1] in tracks[k] && tracks[k][frames[n + 1]] == Moving(p, d, frames[n + 1])
    requires Proper(Moving(p, d, f)) && MeetsFrame(Moving(p, d, f), w, h) && pad >= 0.0 && w > 0 && h > 0
    ensures FaceIsHidden(now[f], Moving(p, d, f), pad, w, h)
  {
    hide Filled, Moving, GapBox, Interpolated;
    var frames := InOrder(tracks[k]);
    FilledInGap(tracks[k], frames, |was|, linger, f, n);
    GapBoxIsExact(p, d, frames[n], frames[n + 1], f);
    var i := FilledBoxIsThere(was, now, tracks, linger, added, k, f, Moving(p, d, f));
    BoxHidesFace(now[f], i, Moving(p, d, f), pad, w, h);
  }

  lemma KeptBox(hist: Track, total: nat, linger: int, m: nat)
    requires hist != map[] && 1 <= m <= linger && Last(hist) + m < total
    ensures Adds(hist, total, linger, Last(hist) + m) == [LingerBox(hist[Last(hist)], RecentSpeed(hist, InOrder(hist)), m)]
  {
  }

  lemma KeptBoxIsThere(was: seq<seq<Box>>, now: seq<seq<Box>>, tracks: seq<Track>, linger: int, added: nat,
                       k: nat, m: nat) returns (i: nat)
    requires Interpolated(was, now, tracks, linger, added) && k < |tracks| && tracks[k] != map[]
    requires 1 <= m <= linger && Last(tracks[k]) + m < |was|
    ensures var last := Last(tracks[k]);
            |now| == |was| && i < |now[last + m]|
            && now[last + m][i] == LingerBox(tracks[k][last], RecentSpeed(tracks[k], InOrder(tracks[k])), m)
  {
    var hist := tracks[k];
    KeptBox(hist, |was|, linger, m);
    hide Adds, Filled, LingerBox, RecentSpeed, Interpolated;
    i := FilledBoxIsThere(was, now, tracks, linger, added, k, Last(hist) + m,
                          LingerBox(hist[Last(hist)], RecentSpeed(hist, InOrder(hist)), m));
  }

  lemma KeptBoxHides(was: seq<seq<Box>>, now: seq<seq<Box>>, tracks: seq<Track>, linger: int, added: nat,
                     k: nat, m: nat, face: Box, pad: real, w: int, h: int)
    requires Interpolated(was, now, tracks, linger, added) && k < |tracks| && tracks[k] != map[]
    requires 1 <= m <= linger && Last(tracks[k]) + m < |was|
    requires Contains(LingerBox(tracks[k][Last(tracks[k])], RecentSpeed(tracks[k], InOrder(tracks[k])), m), face)
    requires Proper(face) && MeetsFrame(face, w, h) && pad >= 0.0 && w > 0 && h > 0
    ensures |now| == |was| && FaceIsHidden(now[Last(tracks[k]) + m], face, pad, w, h)
  {
    hide LingerBox, RecentSpeed, Interpolated, FaceIsHidden, Contains, Proper, MeetsFrame;
    var i := KeptBoxIsThere(was, now, tracks, linger, added, k, m);
    BoxHidesFace(now[Last(tracks[k]) + m], i, face, pad, w, h);
  }

  /** A face lost for good after it was seen to move steadily is hidden as long as the lingering
      lasts, if it gets no faster, wherever it turns. */
  lemma LeavingFaceIsHidden(was: seq<seq<Box>>, now: seq<seq<Box>>, tracks: seq<Track>, linger: int, added: nat,
                            k: nat, m: nat, p: Box, dx: real, dy: real, sx: real, sy: real, pad: real, w: int, h: int)
    requires Interpolated(was, now, tracks, linger, added) && k < |tracks| && tracks[k] != map[]
    requires 1 <= m <= linger && Last(tracks[k]) + m < |was|
    requires Steady(tracks[k], p, dx, dy) && |InOrder(tracks[k])| >= 2
    requires Abs(sx) <= Abs(dx) && Abs(sy) <= Abs(dy)
    requires var face := Shifted(tracks[k][Last(tracks[k])], sx * m as real, sy * m as real);
             Proper(face) && MeetsFrame(face, w, h) && pad >= 0.0 && w > 0 && h > 0
    ensures |now| == |was|
    ensures FaceIsHidden(now[Last(tracks[k]) + m], Shifted(tracks[k][Last(tracks[k])], sx * m as real, sy * m as real), pad, w, h)
  {
    var hist, frames := tracks[k], InOrder(tracks[k]);
    assert Last(hist) == frames[|frames| - 1];
    hide Last, LingerBox, RecentSpeed, Interpolated, Steady, Shifted, Abs, FaceIsHidden, Contains, Proper, MeetsFrame;
    LingerCoversSteadyMotion(hist, p, dx, dy, m, sx, sy);
    KeptBoxHides(was, now, tracks, linger, added, k, m, Shifted(hist[Last(hist)], sx * m as real, sy * m as real), pad, w, h);
  }

  /** A face that was detected stays hidden, whatever is filled in later. */
  lemma DetectedFaceIsHidden(was: seq<seq<Box>>, now: seq<seq<Box>>, tracks: seq<Track>, linger: int, added: nat,
                             f: nat, i: nat, pad: real, w: int, h: int)
    requires Interpolated(was, now, tracks, linger, added) && f < |was| && i < |was[f]|
    requires Proper(was[f][i]) && MeetsFrame(was[f][i], w, h) && pad >= 0.0 && w > 0 && h > 0
    ensures |now| == |was| && FaceIsHidden(now[f], was[f][i], pad, w, h)
  {
    FrameOf(was, now, tracks, linger, added, f);
    BoxHidesFace(now[f], i, was[f][i], pad, w, h);
  }
}
