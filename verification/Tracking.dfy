/** Filling the gaps of face tracks, so that no frame shows a face the detector missed.

    Coordinates are real numbers, frames are numbered from 0. */
module Tracking {
  import opened Basics

  datatype Box = Box(x1: real, y1: real, x2: real, y2: real)

  /** One track: the box observed in each of some frames. */
  type Track = map<nat, Box>

  // ------------------------------------------------------------------ the frames of a track

  ghost predicate IsSorted(frames: seq<nat>) {
    forall i, k :: 0 <= i < k < |frames| ==> frames[i] < frames[k]
  }

  /** The observed frames in order. */
  ghost predicate FramesOf(frames: seq<nat>, hist: Track) {
    IsSorted(frames) && (forall f: nat :: f in hist <==> f in frames)
  }

  lemma LastIsLargest(frames: seq<nat>)
    requires IsSorted(frames) && frames != []
    ensures forall f: nat :: f in frames ==> f <= frames[|frames| - 1]
    ensures forall f: nat :: f in frames[..|frames| - 1] <==> f in frames && f != frames[|frames| - 1]
    ensures IsSorted(frames[..|frames| - 1]) && frames == frames[..|frames| - 1] + [frames[|frames| - 1]]
  {
  }

  /** There is only one such order. */
  lemma {:induction false} SortedIsUnique(a: seq<nat>, b: seq<nat>)
    requires IsSorted(a) && IsSorted(b) && forall f: nat :: f in a <==> f in b
    ensures a == b
  {
    hide IsSorted;
    if a != [] { assert a[0] in b; }
    if b != [] { assert b[0] in a; }
    if a != [] {
      var m, n := |a| - 1, |b| - 1;
      assert a[m] in b && b[n] in a;
      LastIsLargest(a);
      LastIsLargest(b);
      assert a[m] == b[n];
      forall f: nat ensures f in a[..m] <==> f in b[..n] {
        assert f in a <==> f in b;
      }
      SortedIsUnique(a[..m], b[..n]);
    }
  }

  method SortedFrames(hist: Track) returns (frames: seq<nat>)
    ensures FramesOf(frames, hist)
  {
    frames := [];
    var todo := hist.Keys;
    while todo != {}
      invariant todo <= hist.Keys && IsSorted(frames)
      invariant forall f: nat :: f in frames <==> f in hist && f !in todo
      decreases todo
    {
      var f :| f in todo;
      frames := Insert(frames, f);
      todo := todo - {f};
    }
  }

  method Insert(frames: seq<nat>, f: nat) returns (longer: seq<nat>)
    requires IsSorted(frames) && f !in frames
    ensures IsSorted(longer) && forall g: nat :: g in longer <==> g in frames || g == f
  {
    var k := |frames|;
    while k > 0 && frames[k - 1] > f
      invariant 0 <= k <= |frames|
      invariant forall i :: k <= i < |frames| ==> frames[i] > f
    {
      k := k - 1;
    }
    longer := frames[..k] + [f] + frames[k..];
    SplicedHas(frames, k, f);
    assert k > 0 ==> frames[k - 1] in frames;
    SplicedIsSorted(frames, k, f, longer);
  }

  lemma SplicedHas(frames: seq<nat>, k: nat, f: nat)
    requires k <= |frames|
    ensures forall g: nat :: g in frames[..k] + [f] + frames[k..] <==> g in frames || g == f
  {
  }

  lemma SplicedIsSorted(frames: seq<nat>, k: nat, f: nat, longer: seq<nat>)
    requires IsSorted(frames) && k <= |frames| && |longer| == |frames| + 1 && longer[k] == f
    requires forall i :: 0 <= i < k ==> longer[i] == frames[i]
    requires forall i :: k < i < |longer| ==> longer[i] == frames[i - 1] > f
    requires k > 0 ==> frames[k - 1] < f
    ensures IsSorted(longer)
  {
  }

  // ------------------------------------------------------------------ the boxes

  function Between(a: real, b: real, t: real): real {
    a + (b - a) * t
  }

  /** The box of frame `f` between two observations, on the straight line from one to the other. */
  function GapBox(p: Box, q: Box, a: nat, b: nat, f: nat): Box
    requires a < f < b
  {
    var t := (f - a) as real / (b - a) as real;
    Box(Between(p.x1, q.x1, t), Between(p.y1, q.y1, t), Between(p.x2, q.x2, t), Between(p.y2, q.y2, t))
  }

  function Grown(p: Box, gx: real, gy: real): Box {
    Box(p.x1 - gx, p.y1 - gy, p.x2 + gx, p.y2 + gy)
  }

  function Abs(x: real): (r: real)
    ensures r >= 0.0
  {
    if x < 0.0 then -x else x
  }

  const LOOKBACK := 5

  /** The last few frames. */
  function Lately(frames: seq<nat>): (pts: seq<nat>)
    ensures |pts| <= LOOKBACK + 1 && |pts| <= |frames|
    ensures frames != [] ==> pts != [] && pts[|pts| - 1] == frames[|frames| - 1]
  {
    if |frames| > LOOKBACK + 1 then frames[|frames| - (LOOKBACK + 1)..] else frames
  }

  /** How far the middle of an interval moved per frame. */
  function Pace(p1: real, p2: real, q1: real, q2: real, frames: nat): (v: real)
    requires frames > 0
    ensures v >= 0.0
  {
    Abs((q1 + q2) / 2.0 - (p1 + p2) / 2.0) / frames as real
  }

  /** How far the middle of the box moved per frame lately, in each direction. */
  function RecentSpeed(hist: Track, frames: seq<nat>): (v: (real, real))
    requires forall f :: f in frames ==> f in hist
    ensures v.0 >= 0.0 && v.1 >= 0.0
  {
    var pts := Lately(frames);
    if |pts| < 2 then (0.0, 0.0)
    else
      var a, b := pts[0], pts[|pts| - 1];
      if b <= a then (0.0, 0.0)
      else
        assert a in pts && b in pts && a in frames && b in frames;
        var p, q := hist[a], hist[b];
        (Pace(p.x1, p.x2, q.x1, q.x2, b - a), Pace(p.y1, p.y2, q.y1, q.y2, b - a))
  }

  /** The box kept `k` frames after the last observation: it grows with the time. */
  function LingerBox(p: Box, v: (real, real), k: nat): Box {
    Grown(p, v.0 * k as real, v.1 * k as real)
  }

  // ------------------------------------------------------------------ what is filled in

  /** The last observation before `f`. */
  ghost function Before(frames: seq<nat>, f: nat): (i: nat)
    requires IsSorted(frames) && frames != [] && frames[0] < f
    ensures i < |frames| && frames[i] < f && (i + 1 < |frames| ==> f <= frames[i + 1])
    decreases |frames|
  {
    var n := |frames| - 1;
    if frames[n] < f then n else Before(frames[..n], f)
  }

  /** What a track adds to frame `f`: nothing or one box. */
  ghost function Filled(hist: Track, frames: seq<nat>, total: nat, linger: int, f: nat): (boxes: seq<Box>)
    requires FramesOf(frames, hist)
    ensures |boxes| <= 1
  {
    if f >= total || frames == [] || f <= frames[0] || f in hist then []
    else
      var i := Before(frames, f);
      assert frames[i] in frames;
      if i + 1 < |frames| then
        assert frames[i + 1] in frames;
        [GapBox(hist[frames[i]], hist[frames[i + 1]], frames[i], frames[i + 1], f)]
      else if f <= frames[i] + linger then [LingerBox(hist[frames[i]], RecentSpeed(hist, frames), f - frames[i])]
      else []
  }

  /** How many boxes a track adds to the frames below `to`. */
  ghost function Count(hist: Track, frames: seq<nat>, total: nat, linger: int, upto: nat): nat
    requires FramesOf(frames, hist)
  {
    if upto == 0 then 0
    else Count(hist, frames, total, linger, upto - 1) + |Filled(hist, frames, total, linger, upto - 1)|
  }

  lemma FilledInGap(hist: Track, frames: seq<nat>, total: nat, linger: int, f: nat, i: nat)
    requires FramesOf(frames, hist) && i + 1 < |frames| && frames[i] < f < frames[i + 1] && f < total
    ensures frames[i] in hist && frames[i + 1] in hist && f !in hist
    ensures Filled(hist, frames, total, linger, f)
         == [GapBox(hist[frames[i]], hist[frames[i + 1]], frames[i], frames[i + 1], f)]
  {
  }

  lemma FilledAfterwards(hist: Track, frames: seq<nat>, total: nat, linger: int, f: nat)
    requires FramesOf(frames, hist) && frames != [] && frames[|frames| - 1] < f < total
    ensures frames[|frames| - 1] in hist
    ensures var last := frames[|frames| - 1];
            Filled(hist, frames, total, linger, f)
            == if f <= last + linger then [LingerBox(hist[last], RecentSpeed(hist, frames), f - last)] else []
  {
  }

  lemma {:induction false} NothingBetween(hist: Track, frames: seq<nat>, total: nat, linger: int, from: nat, upto: nat)
    requires FramesOf(frames, hist) && from <= upto
    requires forall f :: from <= f < upto ==> Filled(hist, frames, total, linger, f) == []
    ensures Count(hist, frames, total, linger, upto) == Count(hist, frames, total, linger, from)
    decreases upto
  {
    if from < upto {
      NothingBetween(hist, frames, total, linger, from, upto - 1);
    }
  }

  // ------------------------------------------------------------------ filling one track

  /** The frames below `end` have got their boxes, `added` of them; the others are as they were. */
  ghost predicate DoneTo(was: seq<seq<Box>>, now: seq<seq<Box>>, hist: Track, frames: seq<nat>, linger: int,
                         end: nat, added: nat)
  {
    && FramesOf(frames, hist)
    && |was| == |now|
    && (forall f: nat :: f < |now| ==>
         now[f] == if f < end then was[f] + Filled(hist, frames, |was|, linger, f) else was[f])
    && added == Count(hist, frames, |was|, linger, end)
  }

  /** Frames that get nothing may be passed over. */
  lemma PassOver(was: seq<seq<Box>>, now: seq<seq<Box>>, hist: Track, frames: seq<nat>, linger: int,
                 from: nat, end: nat, added: nat)
    requires from <= end && DoneTo(was, now, hist, frames, linger, from, added)
    requires forall f: nat :: from <= f < end ==> Filled(hist, frames, |was|, linger, f) == []
    ensures DoneTo(was, now, hist, frames, linger, end, added)
  {
    NothingBetween(hist, frames, |was|, linger, from, end);
    forall f: nat | from <= f < end && f < |now| ensures now[f] == was[f] + Filled(hist, frames, |was|, linger, f) {
      assert was[f] + [] == was[f];
    }
  }

  lemma PutOne(was: seq<seq<Box>>, now: seq<seq<Box>>, hist: Track, frames: seq<nat>, linger: int,
               f: nat, added: nat, box: Box)
    requires DoneTo(was, now, hist, frames, linger, f, added) && f < |now|
    requires Filled(hist, frames, |was|, linger, f) == [box]
    ensures DoneTo(was, now[f := now[f] + [box]], hist, frames, linger, f + 1, added + 1)
  {
  }

  lemma PutInGap(was: seq<seq<Box>>, now: seq<seq<Box>>, hist: Track, frames: seq<nat>, linger: int,
                 f: nat, added: nat, i: nat)
    requires DoneTo(was, now, hist, frames, linger, f, added) && f < |now|
    requires i + 1 < |frames| && frames[i] < f < frames[i + 1]
    ensures frames[i] in hist && frames[i + 1] in hist
    ensures var box := GapBox(hist[frames[i]], hist[frames[i + 1]], frames[i], frames[i + 1], f);
            DoneTo(was, now[f := now[f] + [box]], hist, frames, linger, f + 1, added + 1)
  {
    FilledInGap(hist, frames, |was|, linger, f, i);
    PutOne(was, now, hist, frames, linger, f, added,
           GapBox(hist[frames[i]], hist[frames[i + 1]], frames[i], frames[i + 1], f));
  }

  lemma PutAfterwards(was: seq<seq<Box>>, now: seq<seq<Box>>, hist: Track, frames: seq<nat>, linger: int,
                      f: nat, added: nat)
    requires DoneTo(was, now, hist, frames, linger, f, added) && f < |now|
    requires frames != [] && frames[|frames| - 1] < f <= frames[|frames| - 1] + linger
    ensures frames[|frames| - 1] in hist && (forall g: nat :: g in frames ==> g in hist)
    ensures var last := frames[|frames| - 1];
            var box := LingerBox(hist[last], RecentSpeed(hist, frames), f - last);
            DoneTo(was, now[f := now[f] + [box]], hist, frames, linger, f + 1, added + 1)
  {
    FilledAfterwards(hist, frames, |was|, linger, f);
    var last := frames[|frames| - 1];
    PutOne(was, now, hist, frames, linger, f, added, LingerBox(hist[last], RecentSpeed(hist, frames), f - last));
  }

  lemma ObservedGetNothing(hist: Track, frames: seq<nat>, total: nat, linger: int, i: nat)
    requires FramesOf(frames, hist) && i < |frames|
    ensures Filled(hist, frames, total, linger, frames[i]) == []
    ensures i == 0 ==> forall f: nat :: f <= frames[0] ==> Filled(hist, frames, total, linger, f) == []
  {
  }

  /** Before the first observation nothing is added, ... */
  lemma FirstFrames(was: seq<seq<Box>>, hist: Track, frames: seq<nat>, linger: int)
    requires FramesOf(frames, hist)
    ensures DoneTo(was, was, hist, frames, linger, if frames == [] then |was| else frames[0] + 1, 0)
  {
    assert DoneTo(was, was, hist, frames, linger, 0, 0);
    if frames == [] {
      PassOver(was, was, hist, frames, linger, 0, |was|, 0);
    } else {
      ObservedGetNothing(hist, frames, |was|, linger, 0);
      PassOver(was, was, hist, frames, linger, 0, frames[0] + 1, 0);
    }
  }

  /** ... nor when a gap is filled, or what is left of it lies beyond the video, ... */
  lemma RestOfGap(was: seq<seq<Box>>, now: seq<seq<Box>>, hist: Track, frames: seq<nat>, linger: int,
                  from: nat, added: nat, i: nat)
    requires DoneTo(was, now, hist, frames, linger, from, added)
    requires i + 1 < |frames| && (from == frames[i + 1] || |was| <= from <= frames[i + 1])
    ensures DoneTo(was, now, hist, frames, linger, frames[i + 1] + 1, added)
  {
    ObservedGetNothing(hist, frames, |was|, linger, i + 1);
    PassOver(was, now, hist, frames, linger, from, frames[i + 1] + 1, added);
  }

  /** ... nor after the lingering. */
  lemma RestOfVideo(was: seq<seq<Box>>, now: seq<seq<Box>>, hist: Track, frames: seq<nat>, linger: int,
                    from: nat, added: nat)
    requires DoneTo(was, now, hist, frames, linger, from, added) && frames != []
    requires from > frames[|frames| - 1] && (from >= |was| || from > frames[|frames| - 1] + linger)
    ensures DoneTo(was, now, hist, frames, linger, |was|, added)
  {
    if from <= |was| {
      forall f: nat | from <= f < |was| ensures Filled(hist, frames, |was|, linger, f) == [] {
        FilledAfterwards(hist, frames, |was|, linger, f);
      }
      PassOver(was, now, hist, frames, linger, from, |was|, added);
    } else {
      NothingBetween(hist, frames, |was|, linger, |was|, from);
    }
  }

  /** Appends a box to a frame. */
  method Append(dets: array<seq<Box>>, f: nat, box: Box)
    requires f < dets.Length
    modifies dets
    ensures dets[..] == old(dets[..])[f := old(dets[..])[f] + [box]]
  {
    dets[f] := dets[f] + [box];
  }

  /** Fills the gap between two observations. */
  method FillGap(dets: array<seq<Box>>, hist: Track, ghost frames: seq<nat>, ghost linger: int, ghost i: nat,
                 a: nat, b: nat, ghost was: seq<seq<Box>>, before: nat) returns (added: nat)
    requires dets.Length == |was| && DoneTo(was, dets[..], hist, frames, linger, a + 1, before)
    requires i + 1 < |frames| && frames[i] == a < frames[i + 1] == b && a in hist && b in hist
    modifies dets
    ensures DoneTo(was, dets[..], hist, frames, linger, b + 1, added)
  {
    hide DoneTo, GapBox;
    added := before;
    var f: nat := a + 1;
    while f < b
      invariant a + 1 <= f <= b && DoneTo(was, dets[..], hist, frames, linger, f, added)
    {
      if f >= dets.Length {
        break;
      }
      PutInGap(was, dets[..], hist, frames, linger, f, added, i);
      Append(dets, f, GapBox(hist[a], hist[b], a, b, f));
      added := added + 1;
      f := f + 1;
    }
    RestOfGap(was, dets[..], hist, frames, linger, f, added, i);
  }

  /** Keeps the last box for a while. */
  method Linger(dets: array<seq<Box>>, hist: Track, frames: seq<nat>, linger: int, ghost was: seq<seq<Box>>, before: nat)
    returns (added: nat)
    requires frames != [] && forall f: nat :: f in frames ==> f in hist
    requires dets.Length == |was| && DoneTo(was, dets[..], hist, frames, linger, frames[|frames| - 1] + 1, before)
    modifies dets
    ensures DoneTo(was, dets[..], hist, frames, linger, |was|, added)
  {
    hide DoneTo, LingerBox, RecentSpeed;
    added := before;
    var last: nat := frames[|frames| - 1];
    assert last in frames;
    var box := hist[last];
    var v := RecentSpeed(hist, frames);
    var end := if dets.Length < last + 1 + linger then dets.Length else last + 1 + linger;
    var f: nat := last + 1;
    while f < end
      invariant last + 1 <= f && (f <= end || f == last + 1)
      invariant DoneTo(was, dets[..], hist, frames, linger, f, added)
    {
      PutAfterwards(was, dets[..], hist, frames, linger, f, added);
      Append(dets, f, LingerBox(box, v, f - last));
      added := added + 1;
      f := f + 1;
    }
    RestOfVideo(was, dets[..], hist, frames, linger, f, added);
  }

  lemma NextIsLater(hist: Track, frames: seq<nat>, i: nat)
    requires FramesOf(frames, hist) && i + 1 < |frames|
    ensures frames[i] < frames[i + 1] && frames[i] in hist && frames[i + 1] in hist
  {
  }

  /** Fills the gaps between the observations. */
  method FillGaps(dets: array<seq<Box>>, hist: Track, frames: seq<nat>, ghost linger: int, ghost was: seq<seq<Box>>)
    returns (added: nat)
    requires frames != [] && FramesOf(frames, hist)
    requires dets.Length == |was| && DoneTo(was, dets[..], hist, frames, linger, frames[0] + 1, 0)
    modifies dets
    ensures DoneTo(was, dets[..], hist, frames, linger, frames[|frames| - 1] + 1, added)
  {
    hide DoneTo, FramesOf;
    added := 0;
    for i := 0 to |frames| - 1
      invariant DoneTo(was, dets[..], hist, frames, linger, frames[i] + 1, added)
    {
      var a: nat, b: nat := frames[i], frames[i + 1];
      NextIsLater(hist, frames, i);
      if b - a <= 1 {
        RestOfGap(was, dets[..], hist, frames, linger, b, added, i);
      } else {
        added := FillGap(dets, hist, frames, linger, i, a, b, was, added);
      }
    }
  }

  /** Fills the gaps of one track, the one after its last observation included. */
  method FillTrack(dets: array<seq<Box>>, hist: Track, linger: int) returns (added: nat, ghost frames: seq<nat>)
    modifies dets
    ensures DoneTo(old(dets[..]), dets[..], hist, frames, linger, dets.Length, added)
  {
    ghost var was := dets[..];
    var sorted := SortedFrames(hist);
    frames := sorted;
    added := 0;
    FirstFrames(was, hist, frames, linger);
    if sorted != [] {
      hide DoneTo;
      added := FillGaps(dets, hist, sorted, linger, was);
      added := Linger(dets, hist, sorted, linger, was, added);
    }
  }

  // ------------------------------------------------------------------ all tracks

  lemma MaxExists(keys: set<nat>) returns (m: nat)
    requires keys != {}
    ensures m in keys && forall k: nat :: k in keys ==> k <= m
  {
    m :| m in keys;
    if keys != {m} {
      var k := MaxExists(keys - {m});
      assert forall g: nat :: g in keys ==> g == m || g in keys - {m};
      m := if k < m then m else k;
    }
  }

  lemma OrderExists(keys: set<nat>) returns (frames: seq<nat>)
    ensures IsSorted(frames) && forall f: nat :: f in keys <==> f in frames
  {
    if keys == {} {
      frames := [];
    } else {
      var m := MaxExists(keys);
      var before := OrderExists(keys - {m});
      frames := before + [m];
      forall i | 0 <= i < |before| ensures before[i] < m {
        assert before[i] in before;
      }
    }
  }

  lemma TrackHasOrder(hist: Track)
    ensures exists frames :: FramesOf(frames, hist)
  {
    var frames := OrderExists(hist.Keys);
    assert FramesOf(frames, hist);
  }

  /** The observed frames of a track, in order. */
  ghost function InOrder(hist: Track): (frames: seq<nat>)
    ensures FramesOf(frames, hist)
  {
    TrackHasOrder(hist);
    var frames :| FramesOf(frames, hist);
    frames
  }

  /** What a track adds to a frame. */
  ghost function Adds(hist: Track, total: nat, linger: int, f: nat): (boxes: seq<Box>)
    ensures |boxes| <= 1
  {
    Filled(hist, InOrder(hist), total, linger, f)
  }

  /** What all tracks add to a frame, in the order of the tracks. */
  ghost function AddedAt(tracks: seq<Track>, total: nat, linger: int, f: nat): seq<Box> {
    if tracks == [] then []
    else AddedAt(tracks[..|tracks| - 1], total, linger, f) + Adds(tracks[|tracks| - 1], total, linger, f)
  }

  /** How many boxes are added to the frames below `end`. */
  ghost function AddedBelow(tracks: seq<Track>, total: nat, linger: int, end: nat): nat {
    if end == 0 then 0
    else AddedBelow(tracks, total, linger, end - 1) + |AddedAt(tracks, total, linger, end - 1)|
  }

  ghost predicate Interpolated(was: seq<seq<Box>>, now: seq<seq<Box>>, tracks: seq<Track>, linger: int, added: nat) {
    && |now| == |was|
    && (forall f: nat :: f < |was| ==> now[f] == was[f] + AddedAt(tracks, |was|, linger, f))
    && added == AddedBelow(tracks, |was|, linger, |was|)
  }

  lemma {:induction false} CountsAddUp(tracks: seq<Track>, hist: Track, total: nat, linger: int, end: nat)
    ensures AddedBelow(tracks + [hist], total, linger, end)
         == AddedBelow(tracks, total, linger, end) + Count(hist, InOrder(hist), total, linger, end)
  {
    hide AddedAt, Filled;
    if end > 0 {
      CountsAddUp(tracks, hist, total, linger, end - 1);
      OneMoreTrack(tracks, hist, total, linger, end - 1);
    }
  }

  lemma OneMoreTrack(tracks: seq<Track>, hist: Track, total: nat, linger: int, f: nat)
    ensures AddedAt(tracks + [hist], total, linger, f) == AddedAt(tracks, total, linger, f) + Adds(hist, total, linger, f)
  {
  }

  lemma {:induction false} NoTracks(was: seq<seq<Box>>, linger: int, end: nat)
    ensures AddedBelow([], |was|, linger, end) == 0
    ensures end == |was| ==> Interpolated(was, was, [], linger, 0)
  {
    if end > 0 {
      NoTracks(was, linger, end - 1);
    }
    if end == |was| {
      forall f: nat | f < |was| ensures was[f] == was[f] + AddedAt([], |was|, linger, f) {
      }
    }
  }

  lemma NextTrack(was: seq<seq<Box>>, mid: seq<seq<Box>>, now: seq<seq<Box>>, tracks: seq<Track>, hist: Track,
                  frames: seq<nat>, linger: int, before: nat, added: nat)
    requires Interpolated(was, mid, tracks, linger, before) && DoneTo(mid, now, hist, frames, linger, |mid|, added)
    ensures Interpolated(was, now, tracks + [hist], linger, before + added)
  {
    SortedIsUnique(frames, InOrder(hist));
    CountsAddUp(tracks, hist, |was|, linger, |was|);
    forall f: nat | f < |was| ensures now[f] == was[f] + AddedAt(tracks + [hist], |was|, linger, f) {
      OneMoreTrack(tracks, hist, |was|, linger, f);
      Associative(was[f], AddedAt(tracks, |was|, linger, f), Adds(hist, |was|, linger, f));
    }
  }

  lemma TrackAfterTrack(was: seq<seq<Box>>, mid: seq<seq<Box>>, now: seq<seq<Box>>, tracks: seq<Track>, i: nat,
                        frames: seq<nat>, linger: int, before: nat, added: nat)
    requires i < |tracks|
    requires Interpolated(was, mid, tracks[..i], linger, before) && DoneTo(mid, now, tracks[i], frames, linger, |mid|, added)
    ensures Interpolated(was, now, tracks[..i + 1], linger, before + added)
  {
    hide Interpolated, DoneTo;
    NextTrack(was, mid, now, tracks[..i], tracks[i], frames, linger, before, added);
    assert tracks[..i + 1] == tracks[..i] + [tracks[i]];
  }

  /** Fills the gaps of all tracks, in place.  Every frame keeps the boxes it had, in their order,
      and gets those the tracks add behind them; `added` counts them. */
  method Interpolate(dets: array<seq<Box>>, tracks: seq<Track>, linger: int) returns (added: nat)
    modifies dets
    ensures Interpolated(old(dets[..]), dets[..], tracks, linger, added)
  {
    ghost var was := dets[..];
    added := 0;
    NoTracks(was, linger, |was|);
    hide Interpolated, DoneTo;
    assert tracks[..0] == [];
    for i := 0 to |tracks|
      invariant Interpolated(was, dets[..], tracks[..i], linger, added)
    {
      ghost var mid := dets[..];
      var more, frames := FillTrack(dets, tracks[i], linger);
      TrackAfterTrack(was, mid, dets[..], tracks, i, frames, linger, added, more);
      added := added + more;
    }
    assert tracks[..|tracks|] == tracks;
  }
}
