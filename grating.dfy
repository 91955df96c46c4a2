/** grating.cpp: the line variant. Each sample column x becomes one stroked vertical line
    from (x, radius - h) to (x, radius + h), the chord of the circle at that column. */
module Grating {
  import opened Chord
  import opened Sampler
  import opened Svg

  /** The compile-time configuration of grating.cpp (micrometres). */
  const RADIUS: int := 22000
  const STEP: int := 7
  const LWIDTH: int := 5

  datatype Point = Point(x: int, y: real)
  datatype Line = Line(p1: Point, p2: Point)

  /** calcLine: the chord at column x. yOffset is sqrt(radius^2 - xCoord^2). The chord is
      vertical, centred on the horizontal centre line and inside the bounding box. */
  function CalcLine(x: int, radius: int, yOffset: real): (l: Line)
    requires 0 <= x <= 2 * radius
    requires IsSqrt(yOffset, Radicand(x, radius))
    ensures l.p1.x == x && l.p2.x == x
    ensures l.p1.y <= l.p2.y && l.p1.y + l.p2.y == (2 * radius) as real
    ensures 0.0 <= l.p1.y && l.p2.y <= (2 * radius) as real
  {
    SqrtBounded(yOffset, Radicand(x, radius), radius);
    Line(Point(x, radius as real - yOffset), Point(x, radius as real + yOffset))
  }

  /** Both ends of the chord lie on the circle: they are where column x meets it. */
  lemma LineEndsOnCircle(x: int, radius: int, h: real)
    requires 0 <= x <= 2 * radius
    requires IsSqrt(h, Radicand(x, radius))
    ensures OnCircle(x, CalcLine(x, radius, h).p1.y, radius)
    ensures OnCircle(x, CalcLine(x, radius, h).p2.y, radius)
  {
    ChordEnds(x, radius, h);
  }

  /** Mirror symmetry: columns x and 2*radius - x get chords with the same end heights,
      whichever square roots the two calls obtain. */
  lemma LineMirror(x: int, radius: int, h: real, hMirror: real)
    requires 0 <= x <= 2 * radius
    requires IsSqrt(h, Radicand(x, radius))
    requires IsSqrt(hMirror, Radicand(2 * radius - x, radius))
    ensures CalcLine(2 * radius - x, radius, hMirror).p1.y == CalcLine(x, radius, h).p1.y
    ensures CalcLine(2 * radius - x, radius, hMirror).p2.y == CalcLine(x, radius, h).p2.y
  {
    RadicandMirror(x, radius);
    SqrtUnique(h, hMirror, Radicand(x, radius));
  }

  /** The chord degenerates to the single point (x, radius) exactly at the tangent columns
      x = 0 and x = 2*radius. */
  lemma DegenerateLine(x: int, radius: int, h: real)
    requires 0 < radius && 0 <= x <= 2 * radius
    requires IsSqrt(h, Radicand(x, radius))
    ensures var l := CalcLine(x, radius, h);
            l.p1.y == l.p2.y <==> (x == 0 || x == 2 * radius)
    ensures x == 0 || x == 2 * radius ==>
            CalcLine(x, radius, h).p1.y == radius as real == CalcLine(x, radius, h).p2.y
  {
    RadicandZeroIff(x, radius);
    SqrtZeroIff(h, Radicand(x, radius));
  }

  /** The chord spans the whole bounding box, from 0 to 2*radius, exactly on the centre
      column x = radius. */
  lemma MaximalLine(x: int, radius: int, h: real)
    requires 0 <= x <= 2 * radius
    requires IsSqrt(h, Radicand(x, radius))
    ensures var l := CalcLine(x, radius, h);
            (l.p1.y == 0.0 && l.p2.y == (2 * radius) as real) <==> x == radius
  {
    HalfChordFullIff(x, radius, h);
  }

  /** printLine: the line element with every coordinate and the stroke width converted from
      micrometres to millimetres. */
  function PrintLine(line: Line, width: int): (e: Element)
    ensures e.LineElement?
    ensures e.x1 * 1000.0 == line.p1.x as real && e.y1 * 1000.0 == line.p1.y
    ensures e.x2 * 1000.0 == line.p2.x as real && e.y2 * 1000.0 == line.p2.y
    ensures e.strokeWidth * 1000.0 == width as real
  {
    LineElement(ToMM(line.p1.x as real), ToMM(line.p1.y), ToMM(line.p2.x as real),
                ToMM(line.p2.y), ToMM(width as real))
  }

  /** One loop iteration's output: the element printLine writes for column x. */
  function LineAt(x: int, radius: int, width: int, sqrt: int -> real): Element
    requires 0 <= x <= 2 * radius && IsSqrtUpTo(sqrt, radius * radius)
  {
    PrintLine(CalcLine(x, radius, sqrt(Radicand(x, radius))), width)
  }

  /** The elements written for the columns xs, one per column, in the same order. */
  function Lines(xs: seq<int>, radius: int, width: int, sqrt: int -> real): (es: seq<Element>)
    requires forall i :: 0 <= i < |xs| ==> 0 <= xs[i] <= 2 * radius
    requires IsSqrtUpTo(sqrt, radius * radius)
    ensures |es| == |xs|
    ensures forall i :: 0 <= i < |xs| ==> es[i] == LineAt(xs[i], radius, width, sqrt)
  {
    if xs == [] then [] else [LineAt(xs[0], radius, width, sqrt)] + Lines(xs[1..], radius, width, sqrt)
  }

  /** The document main writes: header, one line per sample column 1, 1 + step, ... below
      2*radius, footer. */
  function LineDocument(radius: int, step: int, width: int, sqrt: int -> real): seq<Element>
    requires step > 0 && IsSqrtUpTo(sqrt, radius * radius)
  {
    [PrintHeader(radius)] + Lines(Samples(1, step, 2 * radius), radius, width, sqrt) + [Footer]
  }

  /** One iteration of the loop: the output for the columns from x on is the element for x
      followed by the output for the columns from x + step on. */
  lemma LinesStep(x: int, next: int, step: int, radius: int, width: int, sqrt: int -> real)
    requires 0 <= x < 2 * radius && step > 0 && next == x + step
    requires IsSqrtUpTo(sqrt, radius * radius)
    ensures Lines(Samples(x, step, 2 * radius), radius, width, sqrt)
            == [PrintLine(CalcLine(x, radius, sqrt(Radicand(x, radius))), width)] + Lines(Samples(next, step, 2 * radius), radius, width, sqrt)
  {
    var rest := Samples(next, step, 2 * radius);
    assert Samples(x, step, 2 * radius) == [x] + rest;
    assert ([x] + rest)[1..] == rest;
  }

  /** main: header, the sampling loop of grating.cpp, footer. The file handle is replaced by
      the returned element sequence. */
  method GenerateLines(radius: int, step: int, width: int, sqrt: int -> real)
    returns (doc: seq<Element>)
    requires step > 0 && IsSqrtUpTo(sqrt, radius * radius)
    ensures doc == LineDocument(radius, step, width, sqrt)
  {
    var twoRadius := 2 * radius;
    doc := [PrintHeader(radius)];
    var x := 1;
    while x < twoRadius
      invariant 1 <= x
      invariant doc + Lines(Samples(x, step, twoRadius), radius, width, sqrt)
                == [PrintHeader(radius)] + Lines(Samples(1, step, twoRadius), radius, width, sqrt)
      decreases twoRadius - x
    {
      var next := x + step;
      LinesStep(x, next, step, radius, width, sqrt);
      StreamStep(doc, PrintLine(CalcLine(x, radius, sqrt(Radicand(x, radius))), width), Lines(Samples(x, step, twoRadius), radius, width, sqrt),
                 Lines(Samples(next, step, twoRadius), radius, width, sqrt),
                 [PrintHeader(radius)] + Lines(Samples(1, step, twoRadius), radius, width, sqrt));
      doc := doc + [PrintLine(CalcLine(x, radius, sqrt(Radicand(x, radius))), width)];
      x := next;
    }
    doc := doc + [Footer];
  }

  /** The document is the header once, then only line elements, then the footer once, and it
      holds exactly ceil((2*radius - 1) / step) lines. */
  lemma LineDocumentShape(radius: int, step: int, width: int, sqrt: int -> real)
    requires step > 0 && IsSqrtUpTo(sqrt, radius * radius)
    ensures var doc := LineDocument(radius, step, width, sqrt);
            && |doc| == 2 + (if 1 < 2 * radius then (2 * radius - 1 + step - 1) / step else 0)
            && doc[0] == PrintHeader(radius)
            && doc[|doc| - 1] == Footer
            && forall i :: 0 < i < |doc| - 1 ==> doc[i].LineElement?
  {
    SampleCount(1, step, 2 * radius);
  }

  /** The i-th line of the document (counting from 0) is the chord at column 1 + i*step, in
      millimetres: vertical, centred on the canvas's horizontal centre line, inside the
      canvas declared by the header, and stroked with the configured width. */
  lemma LineDocumentGeometry(radius: int, step: int, width: int, sqrt: int -> real, i: int)
    requires step > 0 && IsSqrtUpTo(sqrt, radius * radius)
    requires 0 <= i < |LineDocument(radius, step, width, sqrt)| - 2
    ensures var doc := LineDocument(radius, step, width, sqrt);
            var e, size := doc[i + 1], doc[0].size;
            && e.x1 == e.x2 == ToMM((1 + i * step) as real)
            && 0.0 < e.x1 < size
            && 0.0 <= e.y1 <= e.y2 <= size
            && e.y1 + e.y2 == size
            && e.strokeWidth == ToMM(width as real)
  {
    var doc := LineDocument(radius, step, width, sqrt);
    var xs := Samples(1, step, 2 * radius);
    var x := xs[i];
    assert x == 1 + i * step by {
      SampleAt(1, step, 2 * radius, i);
    }
    assert doc[i + 1] == LineAt(x, radius, width, sqrt) && doc[0] == PrintHeader(radius);
    LineAtInCanvas(x, radius, width, sqrt);
  }

  /** One line, in millimetres: vertical at column x, centred on the canvas's middle row,
      inside the canvas, with the configured stroke width. */
  lemma LineAtInCanvas(x: int, radius: int, width: int, sqrt: int -> real)
    requires 0 <= x <= 2 * radius && IsSqrtUpTo(sqrt, radius * radius)
    ensures var e, size := LineAt(x, radius, width, sqrt), PrintHeader(radius).size;
            && e.x1 == e.x2 == ToMM(x as real)
            && (0 < x < 2 * radius ==> 0.0 < e.x1 < size)
            && 0.0 <= e.y1 <= e.y2 <= size
            && e.y1 + e.y2 == size
            && e.strokeWidth == ToMM(width as real)
  {
    var l := CalcLine(x, radius, sqrt(Radicand(x, radius)));
    assert ToMM(l.p1.y) + ToMM(l.p2.y) == ToMM(l.p1.y + l.p2.y);
  }

  /** Between the header and the footer, the document holds the line of the k-th visited
      column at position k + 1. */
  lemma LineDocumentAt(radius: int, step: int, width: int, sqrt: int -> real, k: int)
    requires step > 0 && IsSqrtUpTo(sqrt, radius * radius)
    requires 0 <= k < |Samples(1, step, 2 * radius)|
    ensures var doc := LineDocument(radius, step, width, sqrt);
            |doc| == |Samples(1, step, 2 * radius)| + 2
            && doc[k + 1] == LineAt(Samples(1, step, 2 * radius)[k], radius, width, sqrt)
  {
    var body := Lines(Samples(1, step, 2 * radius), radius, width, sqrt);
    assert LineDocument(radius, step, width, sqrt)[k + 1] == body[k];
  }

  /** Lines appear in strictly increasing column order. */
  lemma LineDocumentOrdered(radius: int, step: int, width: int, sqrt: int -> real, i: int, j: int)
    requires step > 0 && IsSqrtUpTo(sqrt, radius * radius)
    requires 0 <= i < j < |Samples(1, step, 2 * radius)|
    ensures LineDocument(radius, step, width, sqrt)[i + 1].x1 < LineDocument(radius, step, width, sqrt)[j + 1].x1
  {
    var xs := Samples(1, step, 2 * radius);
    var a, b := xs[i], xs[j];
    assert a < b by { SamplesIncreasing(1, step, 2 * radius, i, j); }
    assert LineDocument(radius, step, width, sqrt)[i + 1].x1 == ToMM(a as real) by {
      LineDocumentAt(radius, step, width, sqrt, i);
      LineAtInCanvas(a, radius, width, sqrt);
    }
    assert LineDocument(radius, step, width, sqrt)[j + 1].x1 == ToMM(b as real) by {
      LineDocumentAt(radius, step, width, sqrt, j);
      LineAtInCanvas(b, radius, width, sqrt);
    }
    ToMMMonotone(a as real, b as real);
  }

  /** With the shipped configuration (radius 22000 um, step 7 um, stroke 5 um) the loop draws
      6286 lines on a 44 mm square canvas, each stroked 0.005 mm wide. */
  lemma DefaultLineDocument(sqrt: int -> real)
    requires IsSqrtUpTo(sqrt, RADIUS * RADIUS)
    ensures var doc := LineDocument(RADIUS, STEP, LWIDTH, sqrt);
            && |doc| == 6286 + 2 && doc[0] == Header(44.0)
            && doc[1].LineElement? && doc[1].strokeWidth == 0.005
  {
    LineDocumentShape(RADIUS, STEP, LWIDTH, sqrt);
    LineDocumentAt(RADIUS, STEP, LWIDTH, sqrt, 0);
    LineAtInCanvas(Samples(1, STEP, 2 * RADIUS)[0], RADIUS, LWIDTH, sqrt);
  }

  /** A small configuration, radius 100 um and step 50 um: the loop visits columns 1, 51, 101
      and 151 (all below the diameter 200) on a 0.2 mm canvas. */
  lemma SmallLineDocument(width: int, sqrt: int -> real)
    requires IsSqrtUpTo(sqrt, 100 * 100)
    ensures Samples(1, 50, 200) == [1, 51, 101, 151]
    ensures var doc := LineDocument(100, 50, width, sqrt);
            |doc| == 6 && doc[0] == Header(0.2) && doc[1].x1 == 0.001 && doc[4].x1 == 0.151
  {
    assert Samples(201, 50, 200) == [];
    assert Samples(151, 50, 200) == [151];
    assert Samples(101, 50, 200) == [101, 151];
    assert Samples(51, 50, 200) == [51, 101, 151];
  }
}
