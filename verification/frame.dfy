/**
 * One frame of the animation: the mapping from canvas positions to points of
 * the plane, the RGBA byte buffer a frame fills (four bytes per pixel, rows
 * top to bottom, pixels left to right), and the draw routine that fills it
 * pixel by pixel and hands the next zoom to the following frame.
 */
module Frame {
  import opened ComplexNumbers
  import opened EscapeTime
  import opened Palette
  import opened Zoom
  import opened Arithmetic

  // ---------------------------------------------------------------------------
  // From the canvas to the plane

  /**
   * The point a canvas position (x, y) stands for: the canvas spans 3/zoom
   * horizontally and 2/zoom vertically, and the view sits one unit below the
   * real axis.
   */
  function Coords(width: nat, height: nat, zoom: real, x: real, y: real): (c: Complex)
    requires width > 0 && height > 0 && zoom > 0.0
    ensures c == Complex(ToPlane(x, width as real, 3.0, 2.0, zoom),
                         ToPlane(y, height as real, 2.0, 1.0 + zoom, zoom))
  {
    assert y / height as real * 2.0 - 1.0 - zoom * 1.0 == y / height as real * 2.0 - (1.0 + zoom);
    Complex((x / width as real * 3.0 - 2.0) / zoom,
            (y / height as real * 2.0 - 1.0 - zoom * 1.0) / zoom)
  }

  /** One coordinate of Coords: canvas offset t along an axis of n pixels, scaled by a, shifted by b, divided by the zoom. */
  function ToPlane(t: real, n: real, a: real, b: real, zoom: real): real
    requires n > 0.0 && zoom > 0.0
  {
    (t / n * a - b) / zoom
  }

  /** The inverse of ToPlane. */
  function ToCanvas(s: real, n: real, a: real, b: real, zoom: real): real
    requires a > 0.0
  {
    (s * zoom + b) / a * n
  }

  lemma ToCanvasOfToPlane(t: real, n: real, a: real, b: real, zoom: real)
    requires n > 0.0 && a > 0.0 && zoom > 0.0
    ensures ToCanvas(ToPlane(t, n, a, b, zoom), n, a, b, zoom) == t
  {
    var u := t / n;
    assert u * n == t;
    var v := u * a - b;
    assert v / zoom * zoom == v;
    assert (v + b) / a == u;
  }

  lemma ToPlaneOfToCanvas(s: real, n: real, a: real, b: real, zoom: real)
    requires n > 0.0 && a > 0.0 && zoom > 0.0
    ensures ToPlane(ToCanvas(s, n, a, b, zoom), n, a, b, zoom) == s
  {
    var u := (s * zoom + b) / a;
    assert u * n / n == u;
    assert u * a == s * zoom + b;
    assert (s * zoom) / zoom == s;
  }

  /** The canvas position a point of the plane is drawn at. */
  function CanvasPosition(width: nat, height: nat, zoom: real, c: Complex): (real, real)
    requires width > 0 && height > 0 && zoom > 0.0
  {
    (ToCanvas(c.r, width as real, 3.0, 2.0, zoom),
     ToCanvas(c.i, height as real, 2.0, 1.0 + zoom, zoom))
  }

  /** Drawing the point of a canvas position gives back that position. */
  lemma CoordsRoundTrip(width: nat, height: nat, zoom: real, x: real, y: real)
    requires width > 0 && height > 0 && zoom > 0.0
    ensures CanvasPosition(width, height, zoom, Coords(width, height, zoom, x, y)) == (x, y)
  {
    ToCanvasOfToPlane(x, width as real, 3.0, 2.0, zoom);
    ToCanvasOfToPlane(y, height as real, 2.0, 1.0 + zoom, zoom);
  }

  /** The point of the canvas position of c is c itself. */
  lemma CanvasPositionRoundTrip(width: nat, height: nat, zoom: real, c: Complex)
    requires width > 0 && height > 0 && zoom > 0.0
    ensures Coords(width, height, zoom, CanvasPosition(width, height, zoom, c).0,
                   CanvasPosition(width, height, zoom, c).1) == c
  {
    var p := CanvasPosition(width, height, zoom, c);
    ToPlaneOfToCanvas(c.r, width as real, 3.0, 2.0, zoom);
    ToPlaneOfToCanvas(c.i, height as real, 2.0, 1.0 + zoom, zoom);
  }

  /** ToPlane is increasing in the canvas offset. */
  lemma ToPlaneMonotone(t: real, t': real, n: real, a: real, b: real, zoom: real)
    requires n > 0.0 && a > 0.0 && zoom > 0.0 && t <= t'
    ensures ToPlane(t, n, a, b, zoom) <= ToPlane(t', n, a, b, zoom)
  {
    assert t / n <= t' / n;
    assert t / n * a <= t' / n * a;
  }

  /** ToPlane at the two ends and the middle of the axis. */
  lemma ToPlaneEnds(n: real, a: real, b: real, zoom: real)
    requires n > 0.0 && zoom > 0.0
    ensures ToPlane(0.0, n, a, b, zoom) == -b / zoom
    ensures ToPlane(n, n, a, b, zoom) == (a - b) / zoom
    ensures ToPlane(n / 2.0, n, a, b, zoom) == (a / 2.0 - b) / zoom
  {
    assert n / n == 1.0;
    assert n / 2.0 / n == 0.5;
  }

  /** Moving one pixel along an axis moves the point by a / n / zoom. */
  lemma ToPlaneStep(t: real, n: real, a: real, b: real, zoom: real)
    requires n > 0.0 && zoom > 0.0
    ensures ToPlane(t + 1.0, n, a, b, zoom) - ToPlane(t, n, a, b, zoom) == a / n / zoom
  {
    assert (t + 1.0) / n == t / n + 1.0 / n;
    assert (t + 1.0) / n * a == t / n * a + a / n;
    var u, v := t / n * a - b, (t + 1.0) / n * a - b;
    assert v == u + a / n;
    assert v / zoom - u / zoom == (v - u) / zoom;
  }

  /**
   * The canvas shows the rectangle [-2/zoom, 1/zoom] × [-1/zoom - 1, 1/zoom - 1]
   * of the plane: every position on the canvas maps into it.
   */
  lemma CoordsWindow(width: nat, height: nat, zoom: real, x: real, y: real)
    requires width > 0 && height > 0 && zoom > 0.0
    requires 0.0 <= x <= width as real && 0.0 <= y <= height as real
    ensures var c := Coords(width, height, zoom, x, y);
            -2.0 / zoom <= c.r <= 1.0 / zoom && -1.0 / zoom - 1.0 <= c.i <= 1.0 / zoom - 1.0
  {
    var w, h := width as real, height as real;
    ToPlaneEnds(w, 3.0, 2.0, zoom);
    ToPlaneEnds(h, 2.0, 1.0 + zoom, zoom);
    ToPlaneMonotone(0.0, x, w, 3.0, 2.0, zoom);
    ToPlaneMonotone(x, w, w, 3.0, 2.0, zoom);
    ToPlaneMonotone(0.0, y, h, 2.0, 1.0 + zoom, zoom);
    ToPlaneMonotone(y, h, h, 2.0, 1.0 + zoom, zoom);
    assert -(1.0 + zoom) / zoom == -1.0 / zoom - 1.0;
    assert (2.0 - (1.0 + zoom)) / zoom == 1.0 / zoom - 1.0;
  }

  /**
   * The middle of the canvas shows -0.5/zoom - i, so as the zoom grows the
   * view closes in on the point -i.
   */
  lemma CoordsCenter(width: nat, height: nat, zoom: real)
    requires width > 0 && height > 0 && zoom > 0.0
    ensures Coords(width, height, zoom, width as real / 2.0, height as real / 2.0)
            == Complex(-0.5 / zoom, -1.0)
  {
    var w, h := width as real, height as real;
    ToPlaneEnds(w, 3.0, 2.0, zoom);
    ToPlaneEnds(h, 2.0, 1.0 + zoom, zoom);
    assert (1.0 - (1.0 + zoom)) / zoom == -1.0;
  }

  /**
   * On a canvas of 3·size × 2·size pixels, as the page sets it up, one pixel
   * step to the right and one pixel step down cover the same distance,
   * 1/(size·zoom): pixels are square.
   */
  lemma SquarePixels(size: nat, zoom: real, x: real, y: real)
    requires size > 0 && zoom > 0.0
    ensures Coords(3 * size, 2 * size, zoom, x + 1.0, y).r - Coords(3 * size, 2 * size, zoom, x, y).r
            == Coords(3 * size, 2 * size, zoom, x, y + 1.0).i - Coords(3 * size, 2 * size, zoom, x, y).i
            == 1.0 / (size as real * zoom)
  {
    var w, h := (3 * size) as real, (2 * size) as real;
    ToPlaneStep(x, w, 3.0, 2.0, zoom);
    ToPlaneStep(y, h, 2.0, 1.0 + zoom, zoom);
    assert 3.0 / w == 1.0 / size as real;
    assert 2.0 / h == 1.0 / size as real;
    assert 1.0 / size as real / zoom == 1.0 / (size as real * zoom);
  }

  // ---------------------------------------------------------------------------
  // The frame buffer

  /**
   * The colour of canvas pixel (x, y): the check is run on the point of the
   * position 0.01 right of and below the pixel's corner.
   */
  function PixelShade(width: nat, height: nat, zoom: real, x: nat, y: nat): (p: Rgba)
    requires width > 0 && height > 0 && zoom > 0.0
    ensures IsByte(p.red) && IsByte(p.green) && IsByte(p.blue) && p.alpha == 255
    ensures EscapeCount(Coords(width, height, zoom, x as real + 0.01, y as real + 0.01)) == None
            ==> p == Rgba(0, 0, 0, 255)
  {
    Shade(EscapeCount(Coords(width, height, zoom, x as real + 0.01, y as real + 0.01)))
  }

  /**
   * A pixel whose point lies at distance 2 or more from the origin escapes at
   * index 0 and so is painted opaque black, like an interior point.
   */
  lemma FarPixelLooksInterior(width: nat, height: nat, zoom: real, x: nat, y: nat)
    requires width > 0 && height > 0 && zoom > 0.0
    requires Escaped(Coords(width, height, zoom, x as real + 0.01, y as real + 0.01))
    ensures PixelShade(width, height, zoom, x, y) == Rgba(0, 0, 0, 255)
  {
    FarPointEscapesImmediately(Coords(width, height, zoom, x as real + 0.01, y as real + 0.01));
    ImmediateEscapeLooksInterior();
  }

  /**
   * The colour of every position of a width × height canvas at the given zoom,
   * as one function of (x, y); positions off the canvas get a filler colour.
   */
  function Shader(width: nat, height: nat, zoom: real): (nat, nat) -> Rgba
    requires zoom > 0.0
  {
    (x: nat, y: nat) =>
      if x < width && y < height then PixelShade(width, height, zoom, x, y) else Rgba(0, 0, 0, 0)
  }

  /** On the canvas the colour function is the pixel's colour. */
  lemma ShaderAt(width: nat, height: nat, zoom: real, x: nat, y: nat)
    requires zoom > 0.0 && x < width && y < height
    ensures Shader(width, height, zoom)(x, y) == PixelShade(width, height, zoom, x, y)
  {
  }

  /** The four bytes of one pixel, in the buffer's R, G, B, A order. */
  function PixelBytes(p: Rgba): (b: seq<int>)
    ensures |b| == 4 && forall k :: 0 <= k < 4 ==> b[k] == Channel(p, k)
  {
    [p.red, p.green, p.blue, p.alpha]
  }

  /** Where row y starts in the buffer: 4·width bytes per row before it. */
  function RowStart(width: nat, y: nat): nat
  {
    if y == 0 then 0 else RowStart(width, y - 1) + 4 * width
  }

  /** The bytes of the first x pixels of row y of a picture whose colours shade gives. */
  function RowBytes(shade: (nat, nat) -> Rgba, y: nat, x: nat): (r: seq<int>)
    ensures |r| == 4 * x
  {
    if x == 0 then [] else RowBytes(shade, y, x - 1) + PixelBytes(shade(x - 1, y))
  }

  /** The bytes of the first y rows, width pixels each, of a picture whose colours shade gives. */
  function ImageBytes(shade: (nat, nat) -> Rgba, width: nat, y: nat): (f: seq<int>)
    ensures |f| == RowStart(width, y)
  {
    if y == 0 then [] else ImageBytes(shade, width, y - 1) + RowBytes(shade, y - 1, width)
  }

  /** The bytes a frame holds after drawing: four per pixel, row after row. */
  function FrameContents(width: nat, height: nat, zoom: real): (f: seq<int>)
    requires zoom > 0.0
    ensures |f| == width * height * 4
  {
    RowStartOffset(width, height);
    ImageBytes(Shader(width, height, zoom), width, height)
  }

  /** Row y starts at byte 4·(y·width), the offset the draw loop computes. */
  lemma {:induction false} RowStartOffset(width: nat, y: nat)
    ensures RowStart(width, y) == 4 * (y * width)
  {
    if y > 0 {
      RowStartOffset(width, y - 1);
      assert 4 * ((y - 1) * width) + 4 * width == 4 * (y * width);
    }
  }

  /** Later rows start later. */
  lemma {:induction false} RowStartMonotone(width: nat, y: nat, y': nat)
    requires y <= y'
    ensures RowStart(width, y) <= RowStart(width, y')
  {
    if y < y' {
      RowStartMonotone(width, y, y' - 1);
    }
  }

  /** Byte 4·x + k of a row is channel k of pixel (x, y). */
  lemma {:induction false} RowBytesPixel(shade: (nat, nat) -> Rgba, y: nat, n: nat, x: nat, k: nat)
    requires x < n && k < 4
    ensures RowBytes(shade, y, n)[4 * x + k] == Channel(shade(x, y), k)
  {
    if x < n - 1 {
      RowBytesPixel(shade, y, n - 1, x, k);
    }
  }

  /** Byte 4·x + k of row y, counted from where the row starts, is channel k of pixel (x, y). */
  lemma {:induction false} ImageBytesPixel(shade: (nat, nat) -> Rgba, width: nat, rows: nat, x: nat, y: nat, k: nat)
    requires x < width && y < rows && k < 4
    ensures RowStart(width, y) + 4 * x + k < |ImageBytes(shade, width, rows)|
    ensures ImageBytes(shade, width, rows)[RowStart(width, y) + 4 * x + k] == Channel(shade(x, y), k)
  {
    var prefix, last := ImageBytes(shade, width, rows - 1), RowBytes(shade, rows - 1, width);
    var i := RowStart(width, y) + 4 * x + k;
    if y < rows - 1 {
      ImageBytesPixel(shade, width, rows - 1, x, y, k);
      assert (prefix + last)[i] == prefix[i];
    } else {
      RowBytesPixel(shade, y, width, x, k);
      assert (prefix + last)[i] == last[4 * x + k];
    }
  }

  /** Where pixel (x, y) sits among the width·height pixels. */
  lemma PixelIndexInBounds(width: nat, height: nat, x: nat, y: nat)
    requires x < width && y < height
    ensures y * width + x < width * height
  {
    calc {
      y * width + x;
    <
      y * width + width;
      (y + 1) * width;
    <= { ScaleMonotone(width, y + 1, height); }
      height * width;
    }
  }

  /** Division by a positive divisor has one quotient and one remainder. */
  lemma DivModUnique(n: int, d: int, q: int, r: int)
    requires d > 0 && 0 <= r < d && n == q * d + r
    ensures n / d == q && n % d == r
  {
    var q', r' := n / d, n % d;
    assert n == q' * d + r';
    if q' < q {
      ScaleMonotone(d, q' + 1, q);
      assert false;
    } else if q' > q {
      ScaleMonotone(d, q + 1, q');
      assert false;
    }
  }

  /** Byte 4·(y·width + x) + k holds channel k of pixel (x, y). */
  lemma PixelOffsetDecode(width: nat, x: nat, y: nat, k: nat)
    requires x < width && k < 4
    ensures (4 * (y * width + x) + k) / 4 == y * width + x
    ensures (4 * (y * width + x) + k) % 4 == k
    ensures (y * width + x) % width == x && (y * width + x) / width == y
  {
    DivModUnique(4 * (y * width + x) + k, 4, y * width + x, k);
    DivModUnique(y * width + x, width, y, x);
  }

  /**
   * The store pattern of the draw loop: byte 4·(y·width + x) + k of the frame
   * is channel k of pixel (x, y).
   */
  lemma FramePixel(width: nat, height: nat, zoom: real, x: nat, y: nat, k: nat)
    requires zoom > 0.0 && x < width && y < height && k < 4
    ensures 0 <= 4 * (y * width + x) + k < |FrameContents(width, height, zoom)|
    ensures FrameContents(width, height, zoom)[4 * (y * width + x) + k]
            == Channel(PixelShade(width, height, zoom, x, y), k)
  {
    PixelIndexInBounds(width, height, x, y);
    ImageBytesPixel(Shader(width, height, zoom), width, height, x, y, k);
    RowStartOffset(width, y);
  }

  /** Distinct (pixel, channel) pairs are stored at distinct bytes. */
  lemma PixelOffsetInjective(width: nat, x: nat, y: nat, k: nat, x': nat, y': nat, k': nat)
    requires x < width && x' < width && k < 4 && k' < 4
    requires 4 * (y * width + x) + k == 4 * (y' * width + x') + k'
    ensures x == x' && y == y' && k == k'
  {
    PixelOffsetDecode(width, x, y, k);
    PixelOffsetDecode(width, x', y', k');
  }

  /** Every byte of a frame is in [0, 255], and every fourth byte, the alpha, is 255. */
  lemma FrameBytes(width: nat, height: nat, zoom: real, j: nat)
    requires zoom > 0.0 && j < width * height * 4
    ensures IsByte(FrameContents(width, height, zoom)[j])
    ensures j % 4 == 3 ==> FrameContents(width, height, zoom)[j] == 255
  {
    var x, y, k := OffsetPixel(width, height, j);
    FramePixel(width, height, zoom, x, y, k);
    var p := PixelShade(width, height, zoom, x, y);
    assert FrameContents(width, height, zoom)[j] == Channel(p, k);
    assert IsByte(p.red) && IsByte(p.green) && IsByte(p.blue) && p.alpha == 255;
  }

  /** Every byte offset below width·height·4 is channel k of some pixel (x, y) of the canvas. */
  lemma OffsetPixel(width: nat, height: nat, j: nat) returns (x: nat, y: nat, k: nat)
    requires j < width * height * 4
    ensures x < width && y < height && k == j % 4
    ensures j == 4 * (y * width + x) + k
  {
    var i := j / 4;
    k := j % 4;
    assert i < width * height;
    FactorsPositive(width, height);
    x, y := i % width, i / width;
    assert i == y * width + x;
    if y >= height {
      ScaleMonotone(width, height, y);
      assert false;
    }
  }

  // ---------------------------------------------------------------------------
  // Drawing a frame

  /** The first y rows of the picture are in buf, the bytes after them are still zero. */
  ghost predicate RowsDrawn(buf: array<int>, shade: (nat, nat) -> Rgba, width: nat, height: nat, y: nat)
    reads buf
  {
    buf.Length == RowStart(width, height)
    && RowStart(width, y) <= buf.Length
    && buf[..RowStart(width, y)] == ImageBytes(shade, width, y)
    && (forall j :: RowStart(width, y) <= j < buf.Length ==> buf[j] == 0)
  }

  /** The first y rows and the first x pixels of row y are in buf, the bytes after them are still zero. */
  ghost predicate PixelsDrawn(buf: array<int>, shade: (nat, nat) -> Rgba, width: nat, height: nat, y: nat, x: nat)
    reads buf
  {
    buf.Length == RowStart(width, height)
    && RowStart(width, y) + 4 * x <= buf.Length
    && buf[..RowStart(width, y) + 4 * x] == ImageBytes(shade, width, y) + RowBytes(shade, y, x)
    && (forall j :: RowStart(width, y) + 4 * x <= j < buf.Length ==> buf[j] == 0)
  }

  /**
   * One frame: a zero-filled buffer of width·height·4 bytes is filled row by
   * row with each pixel's four channels, and the zoom of the next frame is
   * computed. The buffer holds exactly FrameContents afterwards.
   */
  method Draw(width: nat, height: nat, zoom: real) returns (buf: array<int>, nextZoom: real)
    requires zoom > 0.0
    ensures fresh(buf)
    ensures buf[..] == FrameContents(width, height, zoom)
    ensures nextZoom == NextZoom(zoom)
  {
    ghost var shade := Shader(width, height, zoom);
    buf := NewFrameBuffer(width, height);
    NothingDrawn(buf, shade, width, height);
    var y := 0;
    while y < height
      invariant 0 <= y <= height
      invariant RowsDrawn(buf, shade, width, height, y)
    {
      DrawRow(buf, width, height, zoom, y, shade);
      y := y + 1;
    }
    AllDrawn(buf, width, height, zoom, shade);
    nextZoom := NextZoom(zoom);
  }

  /**
   * The page's entry point: a canvas of 3·canvasSize × 2·canvasSize pixels
   * whose first frame is drawn at the seed zoom; the zoom it hands on is the
   * second frame's.
   */
  method Start(canvasSize: nat) returns (buf: array<int>, nextZoom: real)
    ensures fresh(buf)
    ensures buf[..] == FrameContents(3 * canvasSize, 2 * canvasSize, Seed)
    ensures nextZoom == ZoomAfter(Seed, 1)
  {
    buf, nextZoom := Draw(3 * canvasSize, 2 * canvasSize, Seed);
  }

  /** The zero-filled buffer of width·height·4 bytes a frame is drawn into. */
  method NewFrameBuffer(width: nat, height: nat) returns (buf: array<int>)
    ensures fresh(buf)
    ensures buf.Length == width * height * 4
    ensures forall j :: 0 <= j < buf.Length ==> buf[j] == 0
  {
    buf := new int[width * height * 4](_ => 0);
  }

  /** A zero-filled buffer of the frame's size has no rows drawn yet. */
  lemma NothingDrawn(buf: array<int>, shade: (nat, nat) -> Rgba, width: nat, height: nat)
    requires buf.Length == width * height * 4
    requires forall j :: 0 <= j < buf.Length ==> buf[j] == 0
    ensures RowsDrawn(buf, shade, width, height, 0)
  {
    RowStartOffset(width, height);
  }

  /** A buffer with every row drawn holds the whole picture. */
  lemma AllDrawn(buf: array<int>, width: nat, height: nat, zoom: real, shade: (nat, nat) -> Rgba)
    requires zoom > 0.0 && shade == Shader(width, height, zoom)
    requires RowsDrawn(buf, shade, width, height, height)
    ensures buf[..] == FrameContents(width, height, zoom)
  {
    assert buf[..] == buf[..RowStart(width, height)];
  }

  /** The inner loop of Draw: the pixels of row y, left to right. */
  method DrawRow(buf: array<int>, width: nat, height: nat, zoom: real, y: nat, ghost shade: (nat, nat) -> Rgba)
    requires zoom > 0.0 && y < height
    requires shade == Shader(width, height, zoom)
    requires RowsDrawn(buf, shade, width, height, y)
    modifies buf
    ensures RowsDrawn(buf, shade, width, height, y + 1)
  {
    RowStartMonotone(width, y + 1, height);
    assert ImageBytes(shade, width, y) + RowBytes(shade, y, 0) == ImageBytes(shade, width, y);
    var x := 0;
    while x < width
      invariant 0 <= x <= width
      invariant PixelsDrawn(buf, shade, width, height, y, x)
    {
      ShaderAt(width, height, zoom, x, y);
      DrawPixel(buf, width, height, zoom, x, y, shade);
      x := x + 1;
    }
  }

  /** The body of the inner loop: run the check for pixel (x, y) and store its four channels. */
  method DrawPixel(buf: array<int>, width: nat, height: nat, zoom: real, x: nat, y: nat, ghost shade: (nat, nat) -> Rgba)
    requires zoom > 0.0 && x < width && y < height
    requires shade(x, y) == PixelShade(width, height, zoom, x, y)
    requires PixelsDrawn(buf, shade, width, height, y, x)
    modifies buf
    ensures PixelsDrawn(buf, shade, width, height, y, x + 1)
  {
    var yes := Check(Coords(width, height, zoom, x as real + 0.01, y as real + 0.01));
    RowStartOffset(width, y);
    var o := 4 * (y * width + x);
    RowStartMonotone(width, y + 1, height);
    assert o == RowStart(width, y) + 4 * x;
    assert o + 4 <= RowStart(width, y + 1);
    StoreShade(buf, o, yes);
    PixelAppended(buf[..], o, ImageBytes(shade, width, y), RowBytes(shade, y, x), Shade(yes));
  }

  /**
   * The stores of one pixel: opaque black for an interior point, otherwise
   * the three gradient channels, each through the clamped byte conversion,
   * and an opaque alpha. Only the four bytes at o change.
   */
  method StoreShade(buf: array<int>, o: nat, yes: Option<nat>)
    requires o + 4 <= buf.Length
    modifies buf
    ensures buf[..o] == old(buf[..o])
    ensures buf[o..o + 4] == PixelBytes(Shade(yes))
    ensures buf[o + 4..] == old(buf[o + 4..])
  {
    if yes == None {
      buf[o + 0] := ClampToByte(0.0);
      buf[o + 1] := ClampToByte(0.0);
      buf[o + 2] := ClampToByte(0.0);
      buf[o + 3] := ClampToByte(255.0);
    } else {
      buf[o + 0] := ClampToByte(yes.value as real / 30.0 * 255.0);
      buf[o + 1] := ClampToByte(yes.value as real / 50.0 * 255.0);
      buf[o + 2] := ClampToByte(yes.value as real / 15.0 * 255.0);
      buf[o + 3] := ClampToByte(255.0);
    }
  }

  /** Four bytes stored after a drawn prefix extend it by one pixel. */
  lemma PixelAppended(s: seq<int>, o: nat, rows: seq<int>, row: seq<int>, p: Rgba)
    requires o + 4 <= |s| && s[..o] == rows + row
    requires s[o..o + 4] == PixelBytes(p)
    ensures s[..o + 4] == rows + (row + PixelBytes(p))
  {
    assert s[..o + 4] == s[..o] + PixelBytes(p);
  }
}
