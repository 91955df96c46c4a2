/** The vector-graphics document both programs write, as values rather than text: a header
    carrying the canvas size, one drawing primitive per sample, and a footer. The primitives
    keep only the numeric content of the SVG 1.1 `line` (section 9.5) and `rect`
    (section 9.2) elements; every number is in millimetres. */
module Svg {

  /** MM_UM: millimetres per micrometre. */
  const MM_UM: real := 0.001

  datatype Element =
    | Header(size: real)
    | LineElement(x1: real, y1: real, x2: real, y2: real, strokeWidth: real)
    | RectElement(x: real, y: real, width: real, height: real)
    | Footer

  /** Converts a length in micrometres to millimetres; a thousand millimetre units give back
      the micrometre value, and order is kept. */
  function ToMM(um: real): (mm: real)
    ensures mm * 1000.0 == um
    ensures (um < 0.0 <==> mm < 0.0) && (um == 0.0 <==> mm == 0.0)
  {
    um * MM_UM
  }

  /** The conversion keeps strict order, so columns drawn left of one another in micrometres
      stay so in millimetres. */
  lemma ToMMMonotone(a: real, b: real)
    ensures a < b <==> ToMM(a) < ToMM(b)
  {
    assert ToMM(a) * 1000.0 == a && ToMM(b) * 1000.0 == b;
  }

  /** printHeader: the canvas is a square whose side is the circle's diameter 2*radius,
      converted to millimetres. */
  function PrintHeader(radius: int): (e: Element)
    ensures e.Header? && e.size * 1000.0 == (2 * radius) as real
  {
    Header(ToMM(2.0 * radius as real))
  }

  /** Streaming one more primitive keeps the output on course: if the output so far followed
      by what is still to come is the whole document, and what is still to come starts with
      e, then the output with e appended, followed by the remainder, is still the document. */
  lemma StreamStep(written: seq<Element>, e: Element, todo: seq<Element>, later: seq<Element>,
                   document: seq<Element>)
    requires written + todo == document && todo == [e] + later
    ensures (written + [e]) + later == document
  {
    assert (written + [e]) + later == written + ([e] + later);
  }
}
