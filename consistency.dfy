/** The two programs compute the same geometry: a band of grating2.cpp is the chord of
    grating.cpp at the same column, reshaped as top and height, and their sampling loops visit
    the same number of columns give or take one, offset by step - 1. */
module Consistency {
  import opened Chord
  import opened Sampler
  import opened Svg
  import Grating
  import Grating2

  /** For the same column and radius, the band's top is the chord's upper end and its height
      is the chord's length, even though the two programs take their own square roots. */
  lemma BandMatchesChord(x: int, width: int, radius: int, hLine: real, hRect: real)
    requires 0 <= x <= 2 * radius
    requires IsSqrt(hLine, Radicand(x, radius)) && IsSqrt(hRect, Radicand(x, radius))
    ensures var l := Grating.CalcLine(x, radius, hLine);
            var r := Grating2.CalcRectangle(x, width, radius, hRect);
            r.y == l.p1.y && r.height == l.p2.y - l.p1.y
  {
    SqrtUnique(hLine, hRect, Radicand(x, radius));
  }

  /** The same agreement in the written document: in millimetres, the rect spans exactly the
      vertical extent of the line at the same column. */
  lemma RectSpansLine(x: int, width: int, radius: int, sqrtLine: int -> real, sqrtRect: int -> real)
    requires 0 <= x <= 2 * radius
    requires IsSqrtUpTo(sqrtLine, radius * radius) && IsSqrtUpTo(sqrtRect, radius * radius)
    ensures var l := Grating.LineAt(x, radius, width, sqrtLine);
            var r := Grating2.RectAt(x, width, radius, sqrtRect);
            r.x == l.x1 && r.y == l.y1 && r.y + r.height == l.y2
  {
    var v := Radicand(x, radius);
    BandMatchesChord(x, width, radius, sqrtLine(v), sqrtRect(v));
    var r := Grating2.CalcRectangle(x, width, radius, sqrtRect(v));
    assert ToMM(r.y) + ToMM(r.height) == ToMM(r.y + r.height);
  }

  /** The k-th column of grating2.cpp's loop (starting at step) is the k-th column of
      grating.cpp's loop (starting at 1) moved right by step - 1, and grating.cpp visits the
      same number of columns or one more. */
  lemma SampleOffsets(radius: int, step: int)
    requires step > 0
    ensures var lines, rects := Samples(1, step, 2 * radius), Samples(step, step, 2 * radius);
            && |rects| <= |lines| <= |rects| + 1
            && forall k :: 0 <= k < |rects| ==> rects[k] == lines[k] + (step - 1)
  {
    SamplesShifted(1, step - 1, step, 2 * radius);
  }
}
