# Escape-time Mandelbrot renderer, modelled in Dafny

The renderer draws the Mandelbrot set into an RGBA canvas, one frame at a
time, zooming in by a factor 1.03 per frame and snapping back to the seed
zoom 0.001 once the zoom passes 357686241040.31244. For every pixel it runs
the escape-time check: iterate z := c + z·z from zero at most 30 times and
report the first loop index at which |z| >= 2, or none. The escape index
is turned into a colour: black for an interior point, otherwise red k/30·255,
green k/50·255 and blue k/15·255, stored through a clamped byte array with an
opaque alpha.

The model has five modules, one per concern of `index.ts`, and a small
shared `Arithmetic` module (arith.dfy) of monotonicity and sign facts about
products:

- `ComplexNumbers` (complex.dfy): the complex value type, zero, addition,
  multiplication and the squared magnitude, with their algebraic laws.
- `EscapeTime` (escape.dfy): the iterate `Iter`, the escape time `EscapeCount`
  as a pure specification, and the loop `Check` proved equal to it.
- `Palette` (palette.dfy): the clamped byte store `ClampToByte` (round to
  nearest, ties to even, clamp to [0, 255]) and the colour `Shade` of an
  escape time.
- `Zoom` (zoom.dfy): the per-frame zoom update, the zoom `ZoomAfter` n frames
  later, and a proof that the animation always returns to the seed.
- `Frame` (frame.dfy): the canvas-to-plane mapping `Coords`, the byte layout
  `FrameContents` of a finished frame, and the imperative `Draw`, which allocates a
  zero-filled `array<int>` and fills it with two nested loops. Its
  postcondition is that the array holds exactly `FrameContents`.

Doubles are modelled as exact reals. The magnitude test |z| >= 2 is stated on
the squared magnitude (`MagSq(z) >= 4`), and `EscapeTime.MagnitudeThreshold`
shows the two agree for every non-negative square root. The clamped array is
an `array<int>` whose stores all go through `ClampToByte`, the constants 0 and
255 included.

The zoom reset cycle is about 1135 frames long, computed by hand and not
checked: 0.001·1.03^n first exceeds the threshold near n = 1134. The model
proves an upper bound of 1667 frames.

## Model

| member | source | states |
|---|---|---|
| ComplexNumbers.MagSq | index.ts:22-24 | the squared magnitude i² + r² under the square root is never negative |
| ComplexNumbers.MagSqZeroIff | index.ts:22-24 | the magnitude is zero exactly at the zero value |
| ComplexNumbers.MagSqMul | index.ts:15-24 | the magnitude is multiplicative: MagSq(a·b) = MagSq(a)·MagSq(b) |
| ComplexNumbers.MagnitudeExample | index.ts:22-24 | 5 is the magnitude of 3 + 4i |
| ComplexNumbers.Add | index.ts:6-13 | the componentwise sum; adding zero on either side leaves a value unchanged |
| ComplexNumbers.Mul | index.ts:15-20 | the product (a.r·b.r - a.i·b.i, a.r·b.i + a.i·b.r); multiplying by zero on either side gives zero |
| ComplexNumbers.AddCommutes | index.ts:8-13 | addition is commutative |
| ComplexNumbers.MulCommutes | index.ts:15-20 | multiplication is commutative |
| ComplexNumbers.MulExtendsReals | index.ts:15-20 | on the real axis the product is real multiplication, and i·i = -1 |
| ComplexNumbers.MulDistributesOverAdd | index.ts:8-20 | multiplication distributes over addition |
| ComplexNumbers.MulExample | index.ts:15-20 | (1 + 2i)(3 + 4i) = -5 + 10i |
| EscapeTime.Escaped | index.ts:47 | the test that the magnitude is at least 2, stated as MagSq(z) >= 4; the zero value never passes it |
| EscapeTime.Step | index.ts:46 | one update c + num·num, in the source's operand order; from num = 0 it gives c |
| EscapeTime.Iter | index.ts:43-46 | the value of num after n updates from zero: the first is c itself, and at c = 0 every one is zero |
| EscapeTime.EscapeFrom | index.ts:45-52 | from loop index `from` on: the first index below 30 whose iterate escaped, with no earlier one escaping, or None when none in the range escapes |
| EscapeTime.EscapeCount | index.ts:42-53 | the escape time is None or an index below 30 whose iterate i + 1 has escaped while all earlier ones have not; None means none of the 30 iterates escaped |
| EscapeTime.Check | index.ts:42-53 | the loop that reassigns num and returns on the first escape returns exactly EscapeCount(c) |
| EscapeTime.EscapeCountIsFirst | index.ts:45-49 | conversely, the first escaping index below the cap is the escape time |
| EscapeTime.EscapeCountNone | index.ts:45-52 | conversely, a point none of whose 30 iterates escapes is reported as None |
| EscapeTime.MagnitudeThreshold | index.ts:47 | for every non-negative s with s·s = MagSq(z), s >= 2 iff MagSq(z) >= 4 |
| EscapeTime.OriginIsInterior | index.ts:42-53 | the check at the origin returns None |
| EscapeTime.FarPointEscapesImmediately | index.ts:45-49 | a point whose magnitude is at least 2 is reported at index 0 |
| EscapeTime.FarPointExample | index.ts:42-53 | 5 + 5i is reported at index 0 |
| Palette.ClampToByte | index.ts:33 | the stored value is a byte: 0 for inputs <= 0, 255 for inputs >= 255, otherwise within 0.5 of the input, and even on a tie |
| Palette.Shade | index.ts:58-68 | every channel is a byte, alpha is 255, and an interior point is opaque black |
| Palette.ClampKeepsBytes | index.ts:64-66 | storing a value that already is a byte keeps it |
| Palette.ClampMonotone | index.ts:64-66 | the clamped store preserves order |
| Palette.ShadeMonotone | index.ts:64-66 | a later escape is never darker in any channel |
| Palette.ShadeSaturation | index.ts:64-66 | for escape times below 30, red and green stay below 255, and blue is 255 exactly from 15 on |
| Palette.ImmediateEscapeLooksInterior | index.ts:58-66 | a point escaping at index 0 is painted like an interior point |
| Palette.LaterEscapeIsVisible | index.ts:58-66 | every escape at index 1 or later differs from the interior colour |
| Palette.ShadeExamples | index.ts:64-67 | the colours of escape times 1, 3 and 29, including three round-half-to-even ties (8.5, 25.5 and 246.5) |
| Zoom.NextZoom | index.ts:77 | a positive zoom stays positive; above the threshold the next zoom is exactly 0.001; otherwise it grows strictly and stays at most threshold·1.03 |
| Zoom.NextZoomExamples | index.ts:77 | 357686241040.4 resets to 0.001, and 1.0 becomes 1.03 |
| Zoom.NextZoomKeepsRange | index.ts:77 | the range (0, threshold·1.03] is invariant under the update |
| Zoom.ZoomAfter | index.ts:76-78 | the zoom the n-th later frame receives, each frame handing NextZoom of its own on; from a zoom in range every such zoom stays in range |
| Zoom.ZoomAfterSplit | index.ts:76-78 | n + m frames later is m frames after the frame n frames later |
| Zoom.ZoomAfterWithoutReset | index.ts:77 | while no frame passes the threshold, the zoom after k frames is zoom·1.03^k |
| Zoom.GrowthPowerBound | index.ts:77 | 1.03^k >= 1 + 0.03·k |
| Zoom.DoublesWithoutReset | index.ts:77 | 34 or more frames of uninterrupted growth at least double the zoom |
| Zoom.PassesOrDoublesOnce | index.ts:76-78 | within 34 frames a positive zoom passes the threshold or doubles |
| Zoom.PassesOrGrows | index.ts:76-78 | within 34·k frames a positive zoom passes the threshold or grows 2^k-fold |
| Zoom.ResetWithin1667Frames | index.ts:76-78 | from any zoom at or above 0.001 the animation returns to exactly 0.001 within 1667 frames |
| Frame.Coords | index.ts:35-40 | the source's mapping as written, with the `- zoom*1` offset; each coordinate is the affine map (t/n·a - b)/zoom of its canvas offset, 3 wide shifted by 2 and 2 high shifted by 1 + zoom |
| Frame.CoordsRoundTrip | index.ts:35-40 | the canvas position of coords(x, y) is (x, y) |
| Frame.CanvasPositionRoundTrip | index.ts:35-40 | coords of the canvas position of any point c is c |
| Frame.ToPlaneMonotone | index.ts:37-38 | each coordinate grows with its canvas offset |
| Frame.ToPlaneEnds | index.ts:37-38 | each coordinate at both ends and in the middle of its axis |
| Frame.ToPlaneStep | index.ts:37-38 | one pixel along an axis moves the point by a/n/zoom |
| Frame.CoordsWindow | index.ts:35-40 | every canvas position maps into the rectangle [-2/zoom, 1/zoom] × [-1/zoom - 1, 1/zoom - 1] |
| Frame.CoordsCenter | index.ts:35-40 | the middle of the canvas shows -0.5/zoom - i, so the view closes in on -i |
| Frame.SquarePixels | index.ts:81-84 | on the 3·size × 2·size canvas the page creates, a step right and a step down cover the same distance 1/(size·zoom) |
| Frame.PixelShade | index.ts:57-67 | the colour of pixel (x, y) is Shade of the check at coords(x + 0.01, y + 0.01): bytes, alpha 255, black when the check returns none |
| Frame.FarPixelLooksInterior | index.ts:57-62 | a pixel whose point has magnitude 2 or more is painted opaque black, like an interior point |
| Frame.PixelBytes | index.ts:59-67 | a pixel is four bytes, channel k at offset k in R, G, B, A order |
| Frame.FrameContents | index.ts:33 | a finished frame has width·height·4 bytes |
| Frame.RowStartOffset | index.ts:59 | row y starts at byte 4·(y·width) |
| Frame.PixelIndexInBounds | index.ts:59 | a canvas pixel's index y·width + x is below width·height |
| Frame.PixelOffsetDecode | index.ts:59-67 | byte 4·(y·width + x) + k decodes back to pixel (x, y) and channel k |
| Frame.PixelOffsetInjective | index.ts:59-67 | distinct (pixel, channel) pairs are stored at distinct bytes |
| Frame.FramePixel | index.ts:55-68 | byte 4·(y·width + x) + k of a frame is in bounds and holds channel k of pixel (x, y)'s colour |
| Frame.OffsetPixel | index.ts:33 | every byte of the buffer is channel k of some canvas pixel (x, y) |
| Frame.FrameBytes | index.ts:58-67 | every byte of a frame is in [0, 255] and every alpha byte is 255 |
| Frame.Draw | index.ts:30-78 | the buffer filled by the nested loops holds exactly FrameContents(width, height, zoom), and the zoom handed on is NextZoom(zoom) |
| Frame.Start | index.ts:81-91 | the first frame is drawn on a 3·size × 2·size canvas at zoom 0.001, and the zoom handed on is the second frame's |
| Frame.NewFrameBuffer | index.ts:33 | the buffer has width·height·4 bytes, all zero |
| Frame.DrawRow | index.ts:56-69 | the inner loop appends row y to the drawn rows and leaves the rest of the buffer zero |
| Frame.DrawPixel | index.ts:57-68 | one pass of the loop body appends pixel (x, y)'s four bytes to the drawn prefix and leaves the rest zero |
| Frame.StoreShade | index.ts:58-68 | the four stores of one pixel write its colour's channels at offsets o to o + 3 and nothing else |

## Left out

- The canvas and DOM: reading the canvas size, `ImageData`, `putImageData`,
  creating and appending the canvas and the `DOMContentLoaded` listener
  (index.ts:31-32, 72-74, 82, 85-88, 92-95). `Draw` takes the width and height
  as parameters and returns the buffer. `Draw` also accepts a canvas 0 pixels
  wide or high and returns an empty buffer, while `new ImageData(buf, width,
  height)` (index.ts:72) throws on such a buffer in a browser; that error is
  not modelled.
- The early return when no 2D context is available (index.ts:87): `Start`
  models only the case where a context exists.
- `requestAnimationFrame` scheduling (index.ts:76-78): `Draw` returns the next
  zoom, and `Zoom.ZoomAfter` models the sequence of zooms the scheduled frames
  receive.
- IEEE-754 doubles and `Math.sqrt` (index.ts:23): all arithmetic is on exact
  reals, so results near an escape boundary or a rounding tie may differ from
  the browser's.
- Zoom.ResetWithin1667Frames: proves only an upper bound on the cycle length;
  the exact length (about 1135 frames) would need 1.03^1134 as an exact
  rational.
- Frame.Draw: models the `Uint8ClampedArray` as an `array<int>` whose every
  store, the constants 0 and 255 included, goes through `ClampToByte`; the byte type itself is not modelled.
