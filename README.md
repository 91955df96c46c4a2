# Circular grating generator, modelled in Dafny

The two programs `grating.cpp` and `grating2.cpp` draw a circular polarization grating. The
circle has radius `radius`, measured in micrometres. It is inscribed in the square
[0, 2·radius] × [0, 2·radius]. A loop probes columns x at a fixed step. At each column it
computes where a vertical line crosses the circle, and it streams one SVG primitive per
column between a header and a footer:

- `grating.cpp` draws a stroked `line` from (x, radius − h) to (x, radius + h). Its loop
  starts at x = 1.
- `grating2.cpp` draws a filled `rect` at (x, radius − h) with height 2h. Its loop starts at
  x = step.

Here h = sqrt(radius² − xCoord²) and xCoord = |x − radius|. Every number is written in
millimetres: the micrometre value times `MM_UM` = 0.001.

The model has six modules:

- `Chord` (chord.dfy): the integer geometry the two programs share (lines 84-85 of
  grating.cpp, lines 76-77 of grating2.cpp). It also holds the abstract square root
  `IsSqrt(h, v)`, which means h ≥ 0 and h·h = v over exact reals.
- `Sampler` (sampler.dfy): the column sequence of both `for` loops.
- `Svg` (svg.dfy): the document as values. It holds the `Header(size)`, `LineElement`,
  `RectElement` and `Footer` elements, the micrometre-to-millimetre conversion and
  `printHeader`.
- `Grating` (grating.dfy) models grating.cpp and `Grating2` (grating2.dfy) models
  grating2.cpp. Each has the struct, the geometry function, the print function and `main`.
  `main` is a method whose `while` loop builds the element sequence.
- `Consistency` (consistency.dfy): lemmas that relate the two programs.

The compile-time constants (`RADIUS`, `STEP`, `LWIDTH`/`RWIDTH`) become parameters. The
shipped values are kept as `const`s.

With the shipped values, radius 22000 and step 7, grating.cpp writes 6286 lines, which is
ceil(43999/7). grating2.cpp writes 6285 rects. With radius 100 and step 50 the line loop
visits four columns, 1, 51, 101 and 151, because the loop bound is the diameter 200.

The value types of the two programs and of the written document:

| Dafny type or constant | source | what it is |
|---|---|---|
| Grating.Point, Grating.Line | grating.cpp:26-46 | a point with integer column x and real height y; a line is two points |
| Grating2.Rectangle | grating2.cpp:27-38 | integer column x and width, real top y and height |
| Svg.Element | grating.cpp:92-117, grating2.cpp:85-109 | the header with its canvas size, a `line`, a `rect`, and the footer, each holding only its numbers in mm |
| Svg.MM_UM | grating.cpp:21, grating2.cpp:22 | the conversion factor 0.001 mm per µm |
| Grating.RADIUS, STEP, LWIDTH | grating.cpp:16-18 | the shipped radius 22000 µm, step 7 µm and stroke width 5 µm |
| Grating2.RADIUS, STEP, RWIDTH | grating2.cpp:17-19 | the shipped radius 22000 µm, step 7 µm and rect width 5 µm |

## Model

| member | source | states |
|---|---|---|
| Chord.XCoord | grating.cpp:84 | xCoord is the distance \|x − radius\| ≥ 0; inside the bounding box it is at most radius |
| Chord.Radicand | grating.cpp:85 | for 0 ≤ x ≤ 2·radius the radicand handed to sqrt lies in [0, radius²], so the square root is defined |
| Chord.RadicandCircle | grating.cpp:84-85 | the radicand is what the circle equation leaves for the half-chord: radicand + (x − radius)² = radius² |
| Chord.RadicandMirror | grating.cpp:84 | columns x and 2·radius − x have the same xCoord and the same radicand |
| Chord.RadicandZeroIff | grating2.cpp:76-77 | for radius > 0 the radicand is 0 exactly at x = 0 and x = 2·radius |
| Chord.RadicandFullIff | grating2.cpp:76-77 | the radicand is radius² exactly at x = radius |
| Chord.SqrtUnique | grating.cpp:85 | two non-negative square roots of the same radicand are equal, so results do not depend on which call computed the root |
| Chord.SqrtBounded | grating.cpp:85 | the square root of a radicand ≤ radius² is ≤ radius |
| Chord.SqrtZeroIff | grating2.cpp:77 | the square root is 0 exactly when the radicand is 0 |
| Chord.SqrtOfSquare | grating2.cpp:77 | the square root of radius² is radius |
| Chord.IsSqrt | grating.cpp:85 | defines the result h of the library call sqrt(v): h ≥ 0 and h·h = v over exact reals |
| Chord.IsSqrtUpTo | grating2.cpp:77 | defines a square-root function that is correct on every radicand from 0 to the bound; the loops take one with bound radius² |
| Chord.ChordEnds | grating.cpp:84-89 | the points (x, radius − h) and (x, radius + h) both lie on the circle of radius `radius` centred at (radius, radius) |
| Chord.HalfChordFullIff | grating.cpp:84-85 | the half-chord h equals the radius exactly on the centre column x = radius |
| Sampler.Samples | grating.cpp:70 | every visited column lies in [start, limit), and none is visited exactly when start ≥ limit |
| Sampler.SamplesIncreasing | grating.cpp:70 | the visited columns strictly increase |
| Sampler.SampleAt | grating.cpp:70 | the i-th visited column is start + i·step |
| Sampler.SampleEnd | grating.cpp:70 | the column after the last visited one is not below limit, so the loop stops exactly there |
| Sampler.SampleCount | grating.cpp:70 | the loop runs ceil((limit − start)/step) times, or 0 times when start ≥ limit |
| Sampler.SampleCountFromStep | grating2.cpp:62 | starting at step, the loop runs ceil(limit/step) − 1 times for limit > 0 |
| Sampler.SamplesShifted | grating2.cpp:62 | starting c columns later (0 ≤ c < step) shifts every column by c and drops at most the last one |
| Svg.ToMM | grating.cpp:110-114 | the millimetre value times 1000 gives back the micrometre value; sign and zero are kept |
| Svg.ToMMMonotone | grating.cpp:110 | the conversion keeps strict order in both directions |
| Svg.PrintHeader | grating.cpp:94-100 | the header is a square canvas whose side times 1000 is the diameter 2·radius (grating2.cpp:87-93 is the same) |
| Svg.StreamStep | grating.cpp:70-73 | the proof step of both loop invariants: appending the next element keeps "output so far + elements still to come" equal to the whole document |
| Grating.CalcLine | grating.cpp:82-90 | the chord is vertical (both x are the input x), p1.y ≤ p2.y, p1.y + p2.y = 2·radius, and both ends lie in [0, 2·radius] |
| Grating.LineEndsOnCircle | grating.cpp:84-89 | both ends of calcLine(x) lie on the circle |
| Grating.LineMirror | grating.cpp:84-89 | calcLine(x) and calcLine(2·radius − x) have the same end heights |
| Grating.DegenerateLine | grating.cpp:84-89 | the two ends coincide exactly at x = 0 and x = 2·radius, and there both are at height radius |
| Grating.MaximalLine | grating.cpp:84-89 | the chord runs from 0 to 2·radius exactly at x = radius |
| Grating.PrintLine | grating.cpp:108-117 | the line element holds both endpoints and the stroke width, each scaled by 0.001 |
| Grating.LineAt | grating.cpp:72 | defines the element one loop iteration writes: printLine of calcLine(x), with the root supplied by sqrt |
| Grating.Lines | grating.cpp:70-73 | one line element per visited column, in visiting order |
| Grating.LineDocument | grating.cpp:68-75 | defines the whole document main writes: the header, the line of each column 1, 1 + step, … below 2·radius, and the footer; its properties are in the LineDocument… lemmas below |
| Grating.LinesStep | grating.cpp:70-73 | the output for the columns from x on is the line of column x followed by the output for the columns from x + step on |
| Grating.GenerateLines | grating.cpp:56-80 | the loop from 1 while x < 2·radius writes exactly the header, the line of each column in order, and the footer |
| Grating.LineDocumentShape | grating.cpp:68-75 | the document is the header once, then only lines, then the footer once; it holds ceil((2·radius − 1)/step) lines |
| Grating.LineDocumentGeometry | grating.cpp:70-73 | the i-th line is at column 1 + i·step in mm. It is vertical, inside the header's canvas and centred on its middle row (y1 + y2 = size), with stroke width ×0.001 |
| Grating.LineAtInCanvas | grating.cpp:108-117 | one written line is vertical at x·0.001, lies inside the canvas, is centred on its middle row and has stroke width ×0.001 |
| Grating.LineDocumentAt | grating.cpp:68-75 | the document has two more elements than visited columns, and the line of the k-th column is at position k + 1 |
| Grating.LineDocumentOrdered | grating.cpp:70 | lines appear in strictly increasing x |
| Grating.DefaultLineDocument | grating.cpp:16-18 | with radius 22000, step 7 and width 5 the document has 6286 lines, a 44 mm canvas and a 0.005 mm stroke |
| Grating.SmallLineDocument | grating.cpp:70 | with radius 100 and step 50 the columns are 1, 51, 101 and 151 on a 0.2 mm canvas |
| Grating2.CalcRectangle | grating2.cpp:74-83 | the band keeps x and width; height ≥ 0; y + height/2 = radius; 0 ≤ y and y + height ≤ 2·radius |
| Grating2.RectangleEdgesOnCircle | grating2.cpp:76-81 | the band's top edge y and bottom edge y + height both lie on the circle |
| Grating2.RectangleMirror | grating2.cpp:76 | calcRectangle(x) and calcRectangle(2·radius − x) have the same y and height |
| Grating2.DegenerateRectangle | grating2.cpp:76-81 | height is 0 exactly at x = 0 and x = 2·radius, and there y = radius |
| Grating2.MaximalRectangle | grating2.cpp:76-81 | y = 0 and height = 2·radius exactly at x = radius |
| Grating2.PrintRectangle | grating2.cpp:101-109 | the rect element holds x, y, width and height, each scaled by 0.001 |
| Grating2.RectAt | grating2.cpp:64 | defines the element one loop iteration writes: printRectangle of calcRectangle(x), with the root supplied by sqrt |
| Grating2.Rects | grating2.cpp:62-65 | one rect element per visited column, in visiting order |
| Grating2.RectDocument | grating2.cpp:60-67 | defines the whole document main writes: the header, the rect of each column step, 2·step, … below 2·radius, and the footer; its properties are in the RectDocument… lemmas below |
| Grating2.RectsStep | grating2.cpp:62-65 | the output for the columns from x on is the rect of column x followed by the output for the columns from x + step on |
| Grating2.GenerateRects | grating2.cpp:48-72 | the loop from step while x < 2·radius writes exactly the header, the rect of each column in order, and the footer |
| Grating2.RectDocumentShape | grating2.cpp:60-67 | for radius > 0 the document is the header once, then only rects, then the footer once; it holds ceil(2·radius/step) − 1 rects |
| Grating2.RectDocumentGeometry | grating2.cpp:62-64 | the i-th rect is at column (i+1)·step, a multiple of step, in mm. It is inside the header's canvas vertically, centred on its middle row, with width ×0.001 |
| Grating2.RectAtInCanvas | grating2.cpp:101-109 | one written rect is at x·0.001 with width·0.001; it lies vertically inside the canvas and is centred on its middle row |
| Grating2.RectDocumentAt | grating2.cpp:60-67 | the document has two more elements than visited columns, and the rect of the k-th column is at position k + 1 |
| Grating2.RectDocumentOrdered | grating2.cpp:62 | rects appear in strictly increasing x |
| Grating2.DefaultRectDocument | grating2.cpp:17-19 | with radius 22000, step 7 and width 5 the document has 6285 rects, a 44 mm canvas and 0.005 mm wide rects |
| Grating2.SmallRectDocument | grating2.cpp:62 | with radius 100 and step 50 the columns are 50, 100 and 150 on a 0.2 mm canvas |
| Consistency.BandMatchesChord | grating2.cpp:76-81 | for the same x and radius, the band's y is the chord's p1.y and its height is p2.y − p1.y |
| Consistency.RectSpansLine | grating2.cpp:103-106 | in millimetres, the rect at column x has the line's x1, starts at its y1 and ends at its y2 |
| Consistency.SampleOffsets | grating2.cpp:62 | the k-th rect column is the k-th line column plus step − 1; the line loop has as many columns as the rect loop, or one more |

## Left out

- File I/O is not modelled: `fopen`, `fclose`, the `perror` diagnostic and the `-1` exit on
  open failure (grating.cpp:62-66, grating2.cpp:54-58). The methods return the element
  sequence that would be streamed to the file.
- `printf` formatting is not modelled: the XML declaration, the attribute names, the colour
  `black`, and `%f` against `%.3f` precision. Elements carry only their numbers.
- IEEE `double` arithmetic is not modelled. `sqrt` is an abstract parameter h with h ≥ 0 and
  h·h equal to the radicand, and the `* MM_UM` products are exact reals. Rounding is not
  modelled.
- The `int_fast64_t` overflow of `radius * radius` is not modelled; integers are unbounded.
- The unused local `width` in each `main` (grating.cpp:60, grating2.cpp:52) is left out.
- The C++ default arguments (`radius = RADIUS`, `width = LWIDTH`/`RWIDTH`) are not modelled.
  The model passes those values explicitly.
