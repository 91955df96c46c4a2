/** grating2.cpp: the rectangle variant. Each sample column x becomes one filled band of the
    configured width whose top edge is at radius - h and whose height is 2h: the region the
    chord at x covers. */
module Grating2 {
  import opened Chord
  import opened Sampler
  import opened Svg

  /** The compile-time configuration of grating2.cpp (micrometres). */
  const RADIUS: int := 22000
  const STEP: int := 7
  const RWIDTH: int := 5

  datatype Rectangle = Rectangle(x: int, width: int, y: real, height: real)

  /** calcRectangle: the band at column x. halfHeight is sqrt(radius^2 - xCoord^2). The band
      keeps the column and the width, is centred on the horizontal centre line and stays
      inside the bounding box. */
  function CalcRectangle(x: int, width: int, radius: int, halfHeight: real): (r: Rectangle)
    requires 0 <= x <= 2 * radius
    requires IsSqrt(halfHeight, Radicand(x, radius))
    ensures r.x == x && r.width == width
    ensures r.height >= 0.0 && r.y + r.height / 2.0 == radius as real
    ensures 0.0 <= r.y && r.y + r.height <= (2 * radius) as real
  {
    SqrtBounded(halfHeight, Radicand(x, radius), radius);
    Rectangle(x, width, radius as real - halfHeight, 2.0 * halfHeight)
  }

  /** The band's top and bottom edges meet the circle at column x. */
  lemma RectangleEdgesOnCircle(x: int, width: int, radius: int, h: real)
    requires 0 <= x <= 2 * radius
    requires IsSqrt(h, Radicand(x, radius))
    ensures var r := CalcRectangle(x, width, radius, h);
            OnCircle(x, r.y, radius) && OnCircle(x, r.y + r.height, radius)
  {
    ChordEnds(x, radius, h);
    assert (radius as real - h) + 2.0 * h == radius as real + h;
  }

  /** Mirror symmetry: columns x and 2*radius - x get bands with the same top and height,
      whichever square roots the two calls obtain. */
  lemma RectangleMirror(x: int, width: int, radius: int, h: real, hMirror: real)
    requires 0 <= x <= 2 * radius
    requires IsSqrt(h, Radicand(x, radius))
    requires IsSqrt(hMirror, Radicand(2 * radius - x, radius))
    ensures CalcRectangle(2 * radius - x, width, radius, hMirror).y == CalcRectangle(x, width, radius, h).y
    ensures CalcRectangle(2 * radius - x, width, radius, hMirror).height == CalcRectangle(x, width, radius, h).height
  {
    RadicandMirror(x, radius);
    SqrtUnique(h, hMirror, Radicand(x, radius));
  }

  /** The band has zero height, at top y = radius, exactly at the tangent columns x = 0 and
      x = 2*radius. */
  lemma DegenerateRectangle(x: int, width: int, radius: int, h: real)
    requires 0 < radius && 0 <= x <= 2 * radius
    requires IsSqrt(h, Radicand(x, radius))
    ensures CalcRectangle(x, width, radius, h).height == 0.0 <==> (x == 0 || x == 2 * radius)
    ensures x == 0 || x == 2 * radius ==> CalcRectangle(x, width, radius, h).y == radius as real
  {
    RadicandZeroIff(x, radius);
    SqrtZeroIff(h, Radicand(x, radius));
  }

  /** The band covers the whole bounding box height, top 0 and height 2*radius, exactly on the
      centre column x = radius. */
  lemma MaximalRectangle(x: int, width: int, radius: int, h: real)
    requires 0 <= x <= 2 * radius
    requires IsSqrt(h, Radicand(x, radius))
    ensures var r := CalcRectangle(x, width, radius, h);
            (r.y == 0.0 && r.height == (2 * radius) as real) <==> x == radius
  {
    HalfChordFullIff(x, radius, h);
  }

  /** printRectangle: the rect element with position and size converted from micrometres to
      millimetres. */
  function PrintRectangle(rectangle: Rectangle): (e: Element)
    ensures e.RectElement?
    ensures e.x * 1000.0 == rectangle.x as real && e.y * 1000.0 == rectangle.y
    ensures e.width * 1000.0 == rectangle.width as real && e.height * 1000.0 == rectangle.height
  {
    RectElement(ToMM(rectangle.x as real), ToMM(rectangle.y), ToMM(rectangle.width as real),
                ToMM(rectangle.height))
  }

  /** One loop iteration's output: the element printRectangle writes for column x. */
  function RectAt(x: int, width: int, radius: int, sqrt: int -> real): Element
    requires 0 <= x <= 2 * radius && IsSqrtUpTo(sqrt, radius * radius)
  {
    PrintRectangle(CalcRectangle(x, width, radius, sqrt(Radicand(x, radius))))
  }

  /** The elements written for the columns xs, one per column, in the same order. */
  function Rects(xs: seq<int>, width: int, radius: int, sqrt: int -> real): (es: seq<Element>)
    requires forall i :: 0 <= i < |xs| ==> 0 <= xs[i] <= 2 * radius
    requires IsSqrtUpTo(sqrt, radius * radius)
    ensures |es| == |xs|
    ensures forall i :: 0 <= i < |xs| ==> es[i] == RectAt(xs[i], width, radius, sqrt)
  {
    if xs == [] then [] else [RectAt(xs[0], width, radius, sqrt)] + Rects(xs[1..], width, radius, sqrt)
  }

  /** The document main writes: header, one rect per sample column step, 2*step, ... below
      2*radius, footer. */
  function RectDocument(radius: int, step: int, width: int, sqrt: int -> real): seq<Element>
    requires step > 0 && IsSqrtUpTo(sqrt, radius * radius)
  {
    [PrintHeader(radius)] + Rects(Samples(step, step, 2 * radius), width, radius, sqrt) + [Footer]
  }

  /** One iteration of the loop: the output for the columns from x on is the element for x
      followed by the output for the columns from x + step on. */
  lemma RectsStep(x: int, next: int, step: int, width: int, radius: int, sqrt: int -> real)
    requires 0 <= x < 2 * radius && step > 0 && next == x + step
    requires IsSqrtUpTo(sqrt, radius * radius)
    ensures Rects(Samples(x, step, 2 * radius), width, radius, sqrt)
            == [PrintRectangle(CalcRectangle(x, width, radius, sqrt(Radicand(x, radius))))] + Rects(Samples(next, step, 2 * radius), width, radius, sqrt)
  {
    var rest := Samples(next, step, 2 * radius);
    assert Samples(x, step, 2 * radius) == [x] + rest;
    assert ([x] + rest)[1..] == rest;
  }

  /** main: header, the sampling loop of grating2.cpp, footer. The file handle is replaced by
      the returned element sequence. */
  method GenerateRects(radius: int, step: int, width: int, sqrt: int -> real)
    returns (doc: seq<Element>)
    requires step > 0 && IsSqrtUpTo(sqrt, radius * radius)
    ensures doc == RectDocument(radius, step, width, sqrt)
  {
    var diameter := 2 * radius;
    doc := [PrintHeader(radius)];
    var x := step;
    while x < diameter
      invariant 1 <= x
      invariant doc + Rects(Samples(x, step, diameter), width, radius, sqrt)
                == [PrintHeader(radius)] + Rects(Samples(step, step, diameter), width, radius, sqrt)
      decreases diameter - x
    {
      var next := x + step;
      RectsStep(x, next, step, width, radius, sqrt);
      StreamStep(doc, PrintRectangle(CalcRectangle(x, width, radius, sqrt(Radicand(x, radius)))),
                 Rects(Samples(x, step, diameter), width, radius, sqrt),
                 Rects(Samples(next, step, diameter), width, radius, sqrt),
                 [PrintHeader(radius)] + Rects(Samples(step, step, diameter), width, radius, sqrt));
      doc := doc + [PrintRectangle(CalcRectangle(x, width, radius, sqrt(Radicand(x, radius))))];
      x := next;
    }
    doc := doc + [Footer];
  }

  /** The document is the header once, then only rect elements, then the footer once, and for
      a positive radius it holds exactly ceil(2*radius / step) - 1 rects. */
  lemma RectDocumentShape(radius: int, step: int, width: int, sqrt: int -> real)
    requires 0 < radius && step > 0 && IsSqrtUpTo(sqrt, radius * radius)
    ensures var doc := RectDocument(radius, step, width, sqrt);
            && |doc| == 2 + ((2 * radius + step - 1) / step - 1)
            && doc[0] == PrintHeader(radius)
            && doc[|doc| - 1] == Footer
            && forall i :: 0 < i < |doc| - 1 ==> doc[i].RectElement?
  {
    SampleCountFromStep(step, 2 * radius);
  }

  /** The i-th rect of the document (counting from 0) is the band at column (i+1)*step, a
      multiple of the step, in millimetres: centred on the canvas's horizontal centre line,
      vertically inside the canvas declared by the header, with its left edge inside the
      canvas and the configured width. */
  lemma RectDocumentGeometry(radius: int, step: int, width: int, sqrt: int -> real, i: int)
    requires step > 0 && IsSqrtUpTo(sqrt, radius * radius)
    requires 0 <= i < |RectDocument(radius, step, width, sqrt)| - 2
    ensures var doc := RectDocument(radius, step, width, sqrt);
            var e, size := doc[i + 1], doc[0].size;
            && e.x == ToMM(((i + 1) * step) as real)
            && 0.0 < e.x < size
            && 0.0 <= e.y && e.height >= 0.0 && e.y + e.height <= size
            && e.y + e.height / 2.0 == size / 2.0
            && e.width == ToMM(width as real)
  {
    var doc := RectDocument(radius, step, width, sqrt);
    var xs := Samples(step, step, 2 * radius);
    var x := xs[i];
    assert x == (i + 1) * step by {
      SampleAt(step, step, 2 * radius, i);
    }
    assert doc[i + 1] == RectAt(x, width, radius, sqrt) && doc[0] == PrintHeader(radius);
    RectAtInCanvas(x, width, radius, sqrt);
  }

  /** One rect, in millimetres: at column x, centred on the canvas's middle row, inside the
      canvas vertically, with the configured width. */
  lemma RectAtInCanvas(x: int, width: int, radius: int, sqrt: int -> real)
    requires 0 <= x <= 2 * radius && IsSqrtUpTo(sqrt, radius * radius)
    ensures var e, size := RectAt(x, width, radius, sqrt), PrintHeader(radius).size;
            && e.x == ToMM(x as real) && e.width == ToMM(width as real)
            && (0 < x < 2 * radius ==> 0.0 < e.x < size)
            && 0.0 <= e.y && e.height >= 0.0 && e.y + e.height <= size
            && e.y + e.height / 2.0 == size / 2.0
  {
    var r := CalcRectangle(x, width, radius, sqrt(Radicand(x, radius)));
    assert ToMM(r.y) + ToMM(r.height) == ToMM(r.y + r.height);
  }

  /** Between the header and the footer, the document holds the rect of the k-th visited
      column at position k + 1. */
  lemma RectDocumentAt(radius: int, step: int, width: int, sqrt: int -> real, k: int)
    requires step > 0 && IsSqrtUpTo(sqrt, radius * radius)
    requires 0 <= k < |Samples(step, step, 2 * radius)|
    ensures var doc := RectDocument(radius, step, width, sqrt);
            |doc| == |Samples(step, step, 2 * radius)| + 2
            && doc[k + 1] == RectAt(Samples(step, step, 2 * radius)[k], width, radius, sqrt)
  {
    var body := Rects(Samples(step, step, 2 * radius), width, radius, sqrt);
    assert RectDocument(radius, step, width, sqrt)[k + 1] == body[k];
  }

  /** Rects appear in strictly increasing column order. */
  lemma RectDocumentOrdered(radius: int, step: int, width: int, sqrt: int -> real, i: int, j: int)
    requires step > 0 && IsSqrtUpTo(sqrt, radius * radius)
    requires 0 <= i < j < |Samples(step, step, 2 * radius)|
    ensures RectDocument(radius, step, width, sqrt)[i + 1].x < RectDocument(radius, step, width, sqrt)[j + 1].x
  {
    var xs := Samples(step, step, 2 * radius);
    var a, b := xs[i], xs[j];
    assert a < b by { SamplesIncreasing(step, step, 2 * radius, i, j); }
    assert RectDocument(radius, step, width, sqrt)[i + 1].x == ToMM(a as real) by {
      RectDocumentAt(radius, step, width, sqrt, i);
      RectAtInCanvas(a, width, radius, sqrt);
    }
    assert RectDocument(radius, step, width, sqrt)[j + 1].x == ToMM(b as real) by {
      RectDocumentAt(radius, step, width, sqrt, j);
      RectAtInCanvas(b, width, radius, sqrt);
    }
    ToMMMonotone(a as real, b as real);
  }

  /** With the shipped configuration (radius 22000 um, step 7 um, width 5 um) the loop draws
      6285 rects on a 44 mm square canvas, each 0.005 mm wide. */
  lemma DefaultRectDocument(sqrt: int -> real)
    requires IsSqrtUpTo(sqrt, RADIUS * RADIUS)
    ensures var doc := RectDocument(RADIUS, STEP, RWIDTH, sqrt);
            && |doc| == 6285 + 2 && doc[0] == Header(44.0)
            && doc[1].RectElement? && doc[1].width == 0.005
  {
    RectDocumentShape(RADIUS, STEP, RWIDTH, sqrt);
    RectDocumentAt(RADIUS, STEP, RWIDTH, sqrt, 0);
    RectAtInCanvas(Samples(STEP, STEP, 2 * RADIUS)[0], RWIDTH, RADIUS, sqrt);
  }

  /** A small configuration, radius 100 um and step 50 um: the loop visits columns 50, 100
      and 150 on a 0.2 mm canvas. */
  lemma SmallRectDocument(width: int, sqrt: int -> real)
    requires IsSqrtUpTo(sqrt, 100 * 100)
    ensures Samples(50, 50, 200) == [50, 100, 150]
    ensures var doc := RectDocument(100, 50, width, sqrt);
            |doc| == 5 && doc[0] == Header(0.2) && doc[1].x == 0.05 && doc[3].x == 0.15
  {
    assert Samples(200, 50, 200) == [];
    assert Samples(150, 50, 200) == [150];
    assert Samples(100, 50, 200) == [100, 150];
  }
}
