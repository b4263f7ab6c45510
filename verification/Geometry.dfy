/** Fitting a frame into the detector's square, and mapping the boxes found there back. */
module Geometry {
  import opened Basics
  import opened Tracking

  // ------------------------------------------------------------------ rounding

  /** To the nearest integer, a half to the even one. */
  function Round(x: real): int {
    var f := x.Floor;
    var d := x - f as real;
    if d < 0.5 || (d == 0.5 && f % 2 == 0) then f else f + 1
  }

  lemma RoundStaysBelow(x: real, n: int)
    ensures x <= n as real ==> Round(x) <= n
    ensures x >= n as real ==> Round(x) >= n
  {
  }

  /** No integer is nearer, and of two equally near ones it is the even one. */
  lemma RoundIsNearest(x: real)
    ensures -0.5 <= Round(x) as real - x <= 0.5
    ensures Round(x) as real - x == 0.5 || x - Round(x) as real == 0.5 ==> Round(x) % 2 == 0
  {
  }

  // ------------------------------------------------------------------ the square

  /** The scaled frame is `nw` by `nh`, with borders around it. */
  datatype Layout = Layout(r: real, nw: int, nh: int, left: int, top: int, right: int, bottom: int)

  function Min(a: real, b: real): real {
    if b < a then b else a
  }

  function Scale(w: int, h: int, size: int): real
    requires w > 0 && h > 0
  {
    Min(size as real / h as real, size as real / w as real)
  }

  /** A side of the frame, scaled. */
  function Scaled(n: int, r: real): real {
    n as real * r
  }

  function Before(size: int, n: int): int {
    Round((size - n) as real / 2.0 - 0.1)
  }

  function Behind(size: int, n: int): int {
    Round((size - n) as real / 2.0 + 0.1)
  }

  /** Resizing to nothing is an error of the image library. */
  function Letterbox(w: int, h: int, size: int): Result<Layout> {
    if w <= 0 || h <= 0 then Failure("invalid frame shape")
    else
      var r := Scale(w, h, size);
      var nw, nh := Round(Scaled(w, r)), Round(Scaled(h, r));
      if nw <= 0 || nh <= 0 then Failure("cannot resize")
      else Success(Layout(r, nw, nh, Before(size, nw), Before(size, nh), Behind(size, nw), Behind(size, nh)))
  }

  lemma BordersAddUp(size: int, n: int)
    requires n <= size
    ensures 0 <= Before(size, n) <= Behind(size, n) <= Before(size, n) + 1
    ensures Before(size, n) + n + Behind(size, n) == size
  {
  }

  lemma ScaleFits(w: int, h: int, size: int)
    requires w > 0 && h > 0 && size > 0
    ensures var r := Scale(w, h, size);
            && r > 0.0 && 0.0 < Scaled(w, r) <= size as real && 0.0 < Scaled(h, r) <= size as real
            && (Scaled(w, r) == size as real || Scaled(h, r) == size as real)
  {
  }

  /** The square is filled exactly, whatever is rounded: borders and scaled frame add up, the borders
      of two sides differ by at most one, and one side has none. */
  lemma SquareIsFilled(w: int, h: int, size: int)
    requires w > 0 && h > 0 && size > 0
    ensures Letterbox(w, h, size).Success? ==>
            var l := Letterbox(w, h, size).value;
            && l.left + l.nw + l.right == size && l.top + l.nh + l.bottom == size
            && 0 <= l.left <= l.right <= l.left + 1 && 0 <= l.top <= l.bottom <= l.top + 1
            && l.r > 0.0 && (l.nw == size || l.nh == size)
  {
    var r := Scale(w, h, size);
    ScaleFits(w, h, size);
    hide Scale, Scaled, Round, Before, Behind;
    RoundStaysBelow(Scaled(w, r), size);
    RoundStaysBelow(Scaled(h, r), size);
    BordersAddUp(size, Round(Scaled(w, r)));
    BordersAddUp(size, Round(Scaled(h, r)));
  }

  lemma LayoutOf(w: int, h: int, size: int, l: Layout)
    requires w > 0 && h > 0 && Letterbox(w, h, size) == Success(l)
    ensures l.r == Scale(w, h, size) && l.nw == Round(Scaled(w, l.r)) && l.nh == Round(Scaled(h, l.r))
  {
    hide Scale, Scaled, Round, Before, Behind;
  }

  lemma LayoutIsScaled(w: int, h: int, size: int, l: Layout)
    requires w > 0 && h > 0 && size > 0 && Letterbox(w, h, size) == Success(l)
    ensures Scaled(w, l.r) <= size as real && Scaled(h, l.r) <= size as real
    ensures Scaled(if w >= h then w else h, l.r) == size as real
    ensures -0.5 <= Scaled(w, l.r) - l.nw as real <= 0.5 && -0.5 <= Scaled(h, l.r) - l.nh as real <= 0.5
  {
    LayoutOf(w, h, size, l);
    ScaleFits(w, h, size);
    LongSide(w, h, size, l.r);
    hide Letterbox, Scale, Scaled, Round;
    RoundIsNearest(Scaled(w, l.r));
    RoundIsNearest(Scaled(h, l.r));
  }

  lemma ScaledIs(n: int, r: real)
    ensures Scaled(n, r) == n as real * r
  {
  }

  /** The ratio of a layout is the one at which the frame just fits into the square, and its sides are those
      of the frame at this ratio, each rounded to the nearest pixel. */
  lemma RatioIsThatOfTheFrame(w: int, h: int, size: int)
    requires w > 0 && h > 0 && size > 0
    ensures Letterbox(w, h, size).Success? ==>
            var l := Letterbox(w, h, size).value;
            && w as real * l.r <= size as real && h as real * l.r <= size as real
            && (if w >= h then w as real * l.r == size as real else h as real * l.r == size as real)
            && -0.5 <= w as real * l.r - l.nw as real <= 0.5
            && -0.5 <= h as real * l.r - l.nh as real <= 0.5
  {
    hide Letterbox, Scaled;
    if Letterbox(w, h, size).Success? {
      var l := Letterbox(w, h, size).value;
      LayoutIsScaled(w, h, size, l);
      ScaledIs(w, l.r);
      ScaledIs(h, l.r);
    }
  }

  lemma RoundToNothing(x: real)
    requires x > 0.0
    ensures Round(x) <= 0 <==> x <= 0.5
  {
  }

  /** The shorter side, scaled by the longer one. */
  lemma ShortSide(a: int, b: int, size: int)
    requires 0 < a <= b && size > 0
    ensures Scale(b, a, size) == Scale(a, b, size)
    ensures Scaled(a, Scale(a, b, size)) <= 0.5 <==> 2 * (a * size) <= b
  {
    var s, x, y := size as real, a as real, b as real;
    QuotientOrder(s, x, y);
    Half(x, s, y);
    assert x * s == (a * size) as real;
  }

  lemma QuotientOrder(s: real, x: real, y: real)
    requires s > 0.0 && 0.0 < x <= y
    ensures s / y <= s / x
  {
  }

  lemma Half(x: real, s: real, y: real)
    requires x > 0.0 && s > 0.0 && y > 0.0
    ensures x * (s / y) <= 0.5 <==> 2.0 * (x * s) <= y
  {
  }

  /** A frame cannot be fitted exactly when its shorter side would be rounded away. */
  lemma TooThinToFit(w: int, h: int, size: int)
    requires w > 0 && h > 0 && size > 0
    ensures Letterbox(w, h, size).Failure? <==> 2 * (w * size) <= h || 2 * (h * size) <= w
  {
    var r := Scale(w, h, size);
    ScaleFits(w, h, size);
    if w <= h { ShortSide(w, h, size); } else { ShortSide(h, w, size); }
    AtLeast(w, size);
    AtLeast(h, size);
    LongSide(w, h, size, r);
    hide Scale, Scaled, Round, Before, Behind;
    RoundToNothing(Scaled(w, r));
    RoundToNothing(Scaled(h, r));
  }

  /** The longer side fills the square. */
  lemma LongSide(w: int, h: int, size: int, r: real)
    requires w > 0 && h > 0 && size > 0 && r > 0.0
    requires Scaled(w, r) <= size as real && Scaled(h, r) <= size as real
    requires Scaled(w, r) == size as real || Scaled(h, r) == size as real
    ensures Scaled(if w <= h then h else w, r) == size as real
  {
  }

  lemma AtLeast(a: int, size: int)
    requires a > 0 && size > 0
    ensures a * size >= a
  {
  }

  // ------------------------------------------------------------------ there and back

  function Clamp(x: real, limit: real): real {
    if x < 0.0 then 0.0 else if limit < x then limit else x
  }

  /** A coordinate of the frame in the square, ... */
  function Forward(v: real, pad: int, r: real): real {
    v * r + pad as real
  }

  /** ... and back, kept inside the frame. */
  function Back(v: real, pad: int, r: real, limit: int): real
    requires r > 0.0
  {
    Clamp((v - pad as real) / r, limit as real)
  }

  function BackBox(b: Box, l: Layout, w: int, h: int): Box
    requires l.r > 0.0
  {
    Box(Back(b.x1, l.left, l.r, w), Back(b.y1, l.top, l.r, h), Back(b.x2, l.left, l.r, w), Back(b.y2, l.top, l.r, h))
  }

  function ForwardBox(b: Box, l: Layout): Box {
    Box(Forward(b.x1, l.left, l.r), Forward(b.y1, l.top, l.r), Forward(b.x2, l.left, l.r), Forward(b.y2, l.top, l.r))
  }

  lemma CornersForward(n: int, pad: int, r: real)
    ensures Forward(0.0, pad, r) == pad as real && Forward(n as real, pad, r) == Scaled(n, r) + pad as real
  {
  }

  /** The frame's corners are where the image was put: at the borders, and at most half a pixel from the
      far edges of the scaled image. */
  lemma FrameIsWhereItWasPut(w: int, h: int, size: int)
    requires w > 0 && h > 0 && size > 0
    ensures Letterbox(w, h, size).Success? ==>
            var l := Letterbox(w, h, size).value;
            var b := ForwardBox(Box(0.0, 0.0, w as real, h as real), l);
            && b.x1 == l.left as real && b.y1 == l.top as real
            && -0.5 <= b.x2 - (l.left + l.nw) as real <= 0.5
            && -0.5 <= b.y2 - (l.top + l.nh) as real <= 0.5
  {
    hide Letterbox, Scaled, Forward;
    if Letterbox(w, h, size).Success? {
      var l := Letterbox(w, h, size).value;
      LayoutIsScaled(w, h, size, l);
      CornersForward(w, l.left, l.r);
      CornersForward(h, l.top, l.r);
    }
  }

  lemma NotNegative(x: real, t: real)
    requires x >= 0.0 && t > 0.0
    ensures x * t >= 0.0
  {
  }

  lemma LessThanAll(x: real, t: real)
    requires 0.0 <= x <= 1.0 && t > 0.0
    ensures 0.0 <= x * t <= t
  {
    NotNegative(x, t);
    NotNegative(1.0 - x, t);
    assert (1.0 - x) * t == t - x * t;
  }

  lemma Negated(x: real, d: real)
    ensures x * -d == -(x * d) && x * 0.0 == 0.0
  {
  }

  lemma PartOf(x: real, d: real)
    requires 0.0 <= x <= 1.0 && -0.5 <= d <= 0.5
    ensures -0.5 <= x * d <= 0.5
  {
    Negated(x, d);
    if d > 0.0 {
      LessThanAll(x, d);
    } else if d < 0.0 {
      LessThanAll(x, -d);
    }
  }

  /** Where the image, `m` pixels long from `pad` on, shows a coordinate of a frame of length `n`. */
  function ShownAt(v: real, n: int, m: int, pad: int): real
    requires n > 0
  {
    v * m as real / n as real + pad as real
  }

  lemma Cancel(v: real, r: real, m: real, n: real, x: real)
    requires n > 0.0 && v == x * n
    ensures v * r - v * m / n == x * (n * r - m)
  {
    assert v * m / n == x * m by {
      assert v * m == (x * m) * n;
    }
    assert v * r == x * (n * r);
  }

  lemma Quotient(v: real, n: real) returns (x: real)
    requires 0.0 <= v <= n && n > 0.0
    ensures 0.0 <= x <= 1.0 && v == x * n
  {
    x := v / n;
  }

  lemma Difference(v: real, n: int, m: int, pad: int, r: real, x: real)
    requires n > 0 && v == x * n as real
    ensures Forward(v, pad, r) - ShownAt(v, n, m, pad) == x * (Scaled(n, r) - m as real)
  {
    Cancel(v, r, m as real, n as real, x);
  }

  lemma PointInDirection(v: real, n: int, m: int, pad: int, r: real)
    requires n > 0 && 0.0 <= v <= n as real && -0.5 <= Scaled(n, r) - m as real <= 0.5
    ensures -0.5 <= Forward(v, pad, r) - ShownAt(v, n, m, pad) <= 0.5
  {
    hide Scaled, Forward, ShownAt;
    var x := Quotient(v, n as real);
    Difference(v, n, m, pad, r, x);
    PartOf(x, Scaled(n, r) - m as real);
  }

  /** Scaling rounds the sides of the image, the map of coordinates does not: a point of the frame is mapped
      at most half a pixel from where the image shows it, in each direction. */
  lemma PointIsWhereItIsShown(w: int, h: int, size: int, x: real, y: real)
    requires w > 0 && h > 0 && size > 0
    requires 0.0 <= x <= w as real && 0.0 <= y <= h as real
    ensures Letterbox(w, h, size).Success? ==>
            var l := Letterbox(w, h, size).value;
            && -0.5 <= Forward(x, l.left, l.r) - ShownAt(x, w, l.nw, l.left) <= 0.5
            && -0.5 <= Forward(y, l.top, l.r) - ShownAt(y, h, l.nh, l.top) <= 0.5
  {
    hide Letterbox, Scaled, Forward, ShownAt;
    if Letterbox(w, h, size).Success? {
      var l := Letterbox(w, h, size).value;
      LayoutIsScaled(w, h, size, l);
      PointInDirection(x, w, l.nw, l.left, l.r);
      PointInDirection(y, h, l.nh, l.top, l.r);
    }
  }

  /** When an interval found in the square has any length left in the frame: exactly when it meets
      the part of the square that shows the frame. */
  lemma BackKeepsLength(x: real, y: real, pad: int, r: real, limit: int)
    requires r > 0.0 && limit > 0 && x < y
    ensures Back(x, pad, r, limit) < Back(y, pad, r, limit)
            <==> y > pad as real && x < limit as real * r + pad as real
  {
  }

  /** Mapping back undoes the map into the square on every box of the frame, ... */
  lemma BoxesComeBack(b: Box, w: int, h: int, l: Layout)
    requires l.r > 0.0
    requires 0.0 <= b.x1 <= w as real && 0.0 <= b.x2 <= w as real
    requires 0.0 <= b.y1 <= h as real && 0.0 <= b.y2 <= h as real
    ensures BackBox(ForwardBox(b, l), l, w, h) == b
  {
  }

  /** ... and whatever the detector finds ends up in the frame, with its edges in order. */
  lemma BoxesStayInFrame(b: Box, w: int, h: int, l: Layout)
    requires l.r > 0.0 && w > 0 && h > 0 && b.x1 <= b.x2 && b.y1 <= b.y2
    ensures var c := BackBox(b, l, w, h);
            0.0 <= c.x1 <= c.x2 <= w as real && 0.0 <= c.y1 <= c.y2 <= h as real
  {
  }

  // ------------------------------------------------------------------ the whole array at once

  /** Maps a copy of the boxes back, coordinate by coordinate over the whole array. */
  method Unletterbox(boxes: seq<Box>, l: Layout, w: int, h: int) returns (b: array<Box>)
    requires l.r > 0.0
    ensures fresh(b) && b.Length == |boxes|
    ensures forall i :: 0 <= i < |boxes| ==> b[i] == BackBox(boxes[i], l, w, h)
  {
    b := new Box[|boxes|](i requires 0 <= i < |boxes| => boxes[i]);
    forall i | 0 <= i < b.Length {
      b[i] := b[i].(x1 := b[i].x1 - l.left as real, x2 := b[i].x2 - l.left as real);
    }
    forall i | 0 <= i < b.Length {
      b[i] := b[i].(y1 := b[i].y1 - l.top as real, y2 := b[i].y2 - l.top as real);
    }
    forall i | 0 <= i < b.Length {
      b[i] := Box(b[i].x1 / l.r, b[i].y1 / l.r, b[i].x2 / l.r, b[i].y2 / l.r);
    }
    forall i | 0 <= i < b.Length {
      b[i] := b[i].(x1 := Clamp(b[i].x1, w as real), x2 := Clamp(b[i].x2, w as real));
    }
    forall i | 0 <= i < b.Length {
      b[i] := b[i].(y1 := Clamp(b[i].y1, h as real), y2 := Clamp(b[i].y2, h as real));
    }
  }
}
