/** The scratch card: an RGBA raster covering the reward, erased by pointer
    gestures, whose erased share is measured after every stroke and which
    reports the reveal to its host once more than half of it is erased. */
module Scratch {
  import opened Types

  /** A pointer position in client coordinates (`clientX`, `clientY`). */
  datatype Point = Point(clientX: int, clientY: int)

  /** The events the canvas element listens to. */
  datatype PointerEvent =
    | MouseDown(p: Point)
    | MouseMove(p: Point)
    | MouseUp
    | MouseLeave
    | TouchStart(touches: seq<Point>)
    | TouchMove(touches: seq<Point>)
    | TouchEnd

  /** Brush radius in logical pixels. */
  const BrushRadius: nat := 30

  /** A pixel whose alpha is below this counts as erased. */
  const AlphaThreshold: int := 128

  predicate IsByteBuffer(s: seq<int>)
  {
    forall i :: 0 <= i < |s| ==> 0 <= s[i] < 256
  }

  /** The alpha byte of pixel `k` (byte offset 4k + 3). */
  function Alpha(s: seq<int>, k: nat): int
    requires 4 * k + 3 < |s|
  {
    s[4 * k + 3]
  }

  /** The number of pixels among the first `k` whose alpha is below the
      threshold. */
  function TransparentCount(s: seq<int>, k: nat): (c: nat)
    requires 4 * k <= |s|
    ensures c <= k
  {
    if k == 0 then 0
    else TransparentCount(s, k - 1) + (if Alpha(s, k - 1) < AlphaThreshold then 1 else 0)
  }

  /** The count depends on the alpha bytes only: colour bytes are ignored. */
  lemma {:induction false} CountReadsAlphaOnly(s: seq<int>, t: seq<int>, k: nat)
    requires 4 * k <= |s| && 4 * k <= |t|
    requires forall j :: 0 <= j < k ==> Alpha(s, j) == Alpha(t, j)
    ensures TransparentCount(s, k) == TransparentCount(t, k)
  {
    if k > 0 {
      CountReadsAlphaOnly(s, t, k - 1);
    }
  }

  /** `t` has the layout of `s` and no alpha byte of `t` is above the one of
      `s`. */
  ghost predicate AlphaLowered(s: seq<int>, t: seq<int>)
  {
    |s| == |t| && forall j :: 0 <= j && 4 * j + 3 < |s| ==> Alpha(t, j) <= Alpha(s, j)
  }

  /** Lowering alpha values never decreases the number of erased pixels. */
  lemma {:induction false} CountMonotone(s: seq<int>, t: seq<int>, k: nat)
    requires AlphaLowered(s, t) && 4 * k <= |s|
    ensures TransparentCount(s, k) <= TransparentCount(t, k)
  {
    if k > 0 {
      CountMonotone(s, t, k - 1);
      assert Alpha(t, k - 1) <= Alpha(s, k - 1);
    }
  }

  /** A cover whose every alpha is at or above the threshold has no erased
      pixel. */
  lemma {:induction false} OpaqueCountsZero(s: seq<int>, k: nat)
    requires 4 * k <= |s|
    requires forall j :: 0 <= j < k ==> Alpha(s, j) >= AlphaThreshold
    ensures TransparentCount(s, k) == 0
  {
    if k > 0 {
      OpaqueCountsZero(s, k - 1);
    }
  }

  /** The erased share of the card in percent, `transparent / pixels * 100`. */
  function Percent(transparent: nat, pixels: nat): real
    requires pixels > 0
  {
    transparent as real / pixels as real * 100.0
  }

  /** The reveal test `percentage > 50` holds exactly when more than half of
      the pixels are erased, so a card exactly half erased stays hidden. */
  lemma RevealThreshold(transparent: nat, pixels: nat)
    requires pixels > 0
    ensures Percent(transparent, pixels) > 50.0 <==> 2 * transparent > pixels
  {
    var t, n := transparent as real, pixels as real;
    var q := t / n;
    assert q * n == t;
    assert Percent(transparent, pixels) == q * 100.0;
    assert (2 * transparent > pixels) == (2.0 * t > n);
    if q <= 0.5 {
      ShareAtMostHalf(q, n, t);
    } else {
      ShareAboveHalf(q, n, t);
    }
  }

  lemma ShareAtMostHalf(q: real, n: real, t: real)
    requires n > 0.0 && q * n == t && q <= 0.5
    ensures 2.0 * t <= n
  {
    RealMulMonotone(q, 0.5, n);
  }

  lemma ShareAboveHalf(q: real, n: real, t: real)
    requires n > 0.0 && q * n == t && q > 0.5
    ensures 2.0 * t > n
  {
    RealMulMonotone(0.5, q, n);
  }

  /** A count within the pixel count gives a percentage within [0, 100]. */
  lemma PercentInRange(transparent: nat, pixels: nat)
    requires 0 < pixels && transparent <= pixels
    ensures 0.0 <= Percent(transparent, pixels) <= 100.0
  {
    var t, n := transparent as real, pixels as real;
    var q := t / n;
    assert q * n == t;
    assert Percent(transparent, pixels) == q * 100.0;
    RealMulCancel(q, 1.0, n);
    RealMulCancel(0.0, q, n);
  }

  lemma RealMulCancel(a: real, b: real, c: real)
    requires c > 0.0 && a * c <= b * c
    ensures a <= b
  {
  }

  lemma RealMulMonotone(a: real, b: real, c: real)
    requires a <= b && c > 0.0
    ensures a * c <= b * c && (a < b ==> a * c < b * c)
  {
  }

  /** Porter-Duff "destination out" on one alpha byte: the old alpha scaled
      by the share of the brush that does not cover the pixel. */
  function DestinationOut(alpha: int, coverage: int): (r: int)
    requires 0 <= alpha < 256 && 0 <= coverage < 256
    ensures 0 <= r <= alpha
    ensures coverage == 255 ==> r == 0
    ensures coverage == 0 ==> r == alpha
  {
    assert alpha * (255 - coverage) <= alpha * 255;
    alpha * (255 - coverage) / 255
  }

  /** The card's client rectangle (`getBoundingClientRect()`) and
      `window.devicePixelRatio`, as read at one moment. */
  datatype Layout = Layout(left: int, top: int, width: nat, height: nat, devicePixelRatio: nat)

  /** A disc in canvas pixels. */
  datatype Disc = Disc(cx: real, cy: real, radius: real)

  /** The centre of pixel (px, py) lies inside the disc. */
  predicate InDisc(px: int, py: int, d: Disc)
  {
    var dx := px as real + 0.5 - d.cx;
    var dy := py as real + 0.5 - d.cy;
    dx * dx + dy * dy < d.radius * d.radius
  }

  /** Brush coverage of a pixel: full inside the disc, none outside or when
      no disc is filled. */
  function Coverage(px: int, py: int, d: Option<Disc>): int
  {
    if d.Some? && InDisc(px, py, d.value) then 255 else 0
  }

  /** The buffer after filling the disc `d` with `destination-out` on a
      raster `width` pixels wide: the alpha byte of every pixel in the disc
      drops to zero, every other byte keeps its value. */
  function Erased(s: seq<int>, width: nat, d: Option<Disc>): (t: seq<int>)
    requires width > 0 && IsByteBuffer(s)
    ensures IsByteBuffer(t) && AlphaLowered(s, t)
    ensures forall i :: 0 <= i < |s| && i % 4 != 3 ==> t[i] == s[i]
    ensures d.None? ==> t == s
  {
    seq(|s|, i requires 0 <= i < |s| =>
      if i % 4 == 3 then DestinationOut(s[i], Coverage(i / 4 % width, i / 4 / width, d))
      else s[i])
  }

  /** `canvas.width / rect.width`. */
  function ScaleFactor(backing: nat, logical: nat): (s: real)
    requires logical > 0
    ensures s * logical as real == backing as real
  {
    backing as real / logical as real
  }

  lemma MulAtLeast(a: int, b: int)
    requires a > 0 && b >= 1
    ensures a * b >= a
  {
  }

  /** A backing size of `logical * d` gives the scale factor `d`. */
  lemma ScaleFactorIsRatio(logical: nat, d: nat)
    requires logical > 0
    ensures ScaleFactor(logical * d, logical) == d as real
  {
    var s := ScaleFactor(logical * d, logical);
    assert (logical * d) as real == d as real * logical as real;
    RealMulCancel(s, d as real, logical as real);
    RealMulCancel(d as real, s, logical as real);
  }

  /** The disc a stroke at `p` is meant to erase, in canvas pixels: the
      pointer's offset in the rectangle scaled by canvas size over rectangle
      size, with radius `30 * devicePixelRatio`. A rectangle without area
      makes the scale infinite, and the canvas drops an arc with a
      non-finite argument, so nothing is filled. */
  function BrushDisc(p: Point, at: Layout, canvasWidth: nat, canvasHeight: nat): (d: Option<Disc>)
    ensures d.None? <==> at.width == 0 || at.height == 0
    ensures d.Some? ==> d.value.radius == (BrushRadius * at.devicePixelRatio) as real
  {
    if at.width == 0 || at.height == 0 then None
    else Some(Disc(
      (p.clientX - at.left) as real * ScaleFactor(canvasWidth, at.width),
      (p.clientY - at.top) as real * ScaleFactor(canvasHeight, at.height),
      (BrushRadius * at.devicePixelRatio) as real))
  }

  /** The disc `scratch` actually fills: the arc arguments are those of
      `BrushDisc`, but the context still carries the `scale(dpr, dpr)`
      applied at mount, so centre and radius are multiplied by `ctxScale`
      once more. */
  function BrushDiscAsWritten(p: Point, at: Layout, canvasWidth: nat, canvasHeight: nat, ctxScale: nat): (d: Option<Disc>)
    ensures d.None? <==> at.width == 0 || at.height == 0
    ensures d.Some? ==> d.value.radius == (BrushRadius * at.devicePixelRatio * ctxScale) as real
  {
    var b := BrushDisc(p, at, canvasWidth, canvasHeight);
    if b.None? then None
    else Some(Disc(b.value.cx * ctxScale as real, b.value.cy * ctxScale as real, b.value.radius * ctxScale as real))
  }

  /** With a context scale of 1 the filled disc is the intended one. */
  lemma AsWrittenAtScaleOne(p: Point, at: Layout, canvasWidth: nat, canvasHeight: nat)
    ensures BrushDiscAsWritten(p, at, canvasWidth, canvasHeight, 1) == BrushDisc(p, at, canvasWidth, canvasHeight)
  {
  }

  /** A pointer over the card puts the intended brush centre on the canvas,
      whatever the layout has become since mount. */
  lemma BrushDiscOnCanvas(p: Point, at: Layout, canvasWidth: nat, canvasHeight: nat)
    requires canvasWidth > 0 && canvasHeight > 0
    requires at.left <= p.clientX < at.left + at.width
    requires at.top <= p.clientY < at.top + at.height
    ensures BrushDisc(p, at, canvasWidth, canvasHeight).Some?
    ensures 0.0 <= BrushDisc(p, at, canvasWidth, canvasHeight).value.cx < canvasWidth as real
    ensures 0.0 <= BrushDisc(p, at, canvasWidth, canvasHeight).value.cy < canvasHeight as real
  {
    OffsetOnCanvas(p.clientX - at.left, at.width, canvasWidth);
    OffsetOnCanvas(p.clientY - at.top, at.height, canvasHeight);
  }

  lemma OffsetOnCanvas(offset: int, logical: nat, backing: nat)
    requires 0 <= offset < logical && backing > 0
    ensures 0.0 <= offset as real * ScaleFactor(backing, logical) < backing as real
  {
    var s := ScaleFactor(backing, logical);
    RealMulCancel(0.0, s, logical as real);
    assert s != 0.0;
    RealMulMonotone(0.0, offset as real, s);
    RealMulMonotone(offset as real, logical as real, s);
  }

  /** While the rectangle is the one the canvas was sized from (canvas size
      = rectangle size * d), the intended centre is the pointer offset times
      d, and the filled one, with the context scale d, is the offset times
      d * d with radius `30 * devicePixelRatio * d`. */
  lemma SteadyLayout(p: Point, at: Layout, d: nat)
    requires at.width > 0 && at.height > 0
    ensures BrushDisc(p, at, at.width * d, at.height * d) ==
              Some(Disc((p.clientX - at.left) as real * d as real, (p.clientY - at.top) as real * d as real,
                        (BrushRadius * at.devicePixelRatio) as real))
    ensures BrushDiscAsWritten(p, at, at.width * d, at.height * d, d) ==
              Some(Disc((p.clientX - at.left) as real * d as real * d as real,
                        (p.clientY - at.top) as real * d as real * d as real,
                        (BrushRadius * at.devicePixelRatio * d) as real))
  {
    ScaleFactorIsRatio(at.width, d);
    ScaleFactorIsRatio(at.height, d);
    var b := BrushDisc(p, at, at.width * d, at.height * d);
    assert b.value.cx == (p.clientX - at.left) as real * d as real;
    assert b.value.cy == (p.clientY - at.top) as real * d as real;
    var r := (BrushRadius * at.devicePixelRatio) as real;
    assert b.value.radius == r;
    assert (BrushRadius * at.devicePixelRatio * d) as real == r * d as real;
    var a := BrushDiscAsWritten(p, at, at.width * d, at.height * d, d);
    assert a.Some?;
    assert a.value.cx == b.value.cx * d as real;
    assert a.value.cy == b.value.cy * d as real;
    assert a.value.radius == r * d as real;
    assert a.value.cx == (p.clientX - at.left) as real * d as real * d as real;
    assert a.value.cy == (p.clientY - at.top) as real * d as real * d as real;
    assert a.value.radius == (BrushRadius * at.devicePixelRatio * d) as real;
  }

  /** The intended disc of the scale example: at ratio 2, the point
      (100, 100) of a 300 x 200 card at the client origin is erased at
      canvas point (200, 200) with radius 60. */
  lemma ScaleExample()
    ensures BrushDisc(Point(100, 100), Layout(0, 0, 300, 200, 2), 600, 400) == Some(Disc(200.0, 200.0, 60.0))
  {
  }

  lemma SquareAtLeast(a: real, b: real)
    requires 0.0 <= b <= -a
    ensures b * b <= a * a
  {
    if b > 0.0 {
      RealMulMonotone(b, -a, b);
      RealMulMonotone(b, -a, -a);
    }
  }

  /** At ratio 2, a stroke at (200, 150) over a 300 x 200 card at the client
      origin is meant to erase around canvas point (400, 300); the filled
      disc lies around (800, 600) with radius 120, off the 600 x 400 canvas,
      so no pixel changes. */
  lemma AsWrittenMissesCanvas(s: seq<int>)
    requires |s| == 4 * 600 * 400 && IsByteBuffer(s)
    ensures BrushDisc(Point(200, 150), Layout(0, 0, 300, 200, 2), 600, 400) == Some(Disc(400.0, 300.0, 60.0))
    ensures BrushDiscAsWritten(Point(200, 150), Layout(0, 0, 300, 200, 2), 600, 400, 2) == Some(Disc(800.0, 600.0, 120.0))
    ensures Erased(s, 600, Some(Disc(800.0, 600.0, 120.0))) == s
  {
    var d := Disc(800.0, 600.0, 120.0);
    var t := Erased(s, 600, Some(d));
    forall i | 0 <= i < |s|
      ensures t[i] == s[i]
    {
      if i % 4 == 3 {
        var px, py := i / 4 % 600, i / 4 / 600;
        assert 0 <= px < 600 && 0 <= py < 400;
        var dx, dy := px as real + 0.5 - 800.0, py as real + 0.5 - 600.0;
        SquareAtLeast(dx, 200.0);
        SquareAtLeast(dy, 0.0);
        assert dx * dx + dy * dy >= 120.0 * 120.0;
      }
    }
  }

  class ScratchCard {
    /** The layout when the card was mounted. */
    const mount: Layout
    /** `window.devicePixelRatio || 1` at mount: the canvas was sized with
        it, and `ctx.scale(dpr, dpr)` set the context's transform with it. */
    const dpr: nat
    /** `canvas.width`, `canvas.height`. */
    const width: nat
    const height: nat
    /** The canvas's RGBA bytes, row by row. */
    const pixels: array<int>

    var isScratching: bool
    var scratchPercentage: real
    var isRevealed: bool
    /** How many times `onReveal` has been called. */
    var revealCalls: nat

    function PixelCount(): nat
    {
      width * height
    }

    /** The number of erased pixels of the canvas. */
    ghost function Transparent(): nat
      reads pixels
      requires pixels.Length == 4 * PixelCount()
    {
      TransparentCount(pixels[..], PixelCount())
    }

    ghost predicate Valid()
      reads this, pixels
    {
      && mount.width > 0 && mount.height > 0
      && dpr == (if mount.devicePixelRatio == 0 then 1 else mount.devicePixelRatio)
      && width == mount.width * dpr && height == mount.height * dpr
      && PixelCount() > 0
      && pixels.Length == 4 * PixelCount()
      && IsByteBuffer(pixels[..])
      && scratchPercentage == Percent(Transparent(), PixelCount())
      && (isRevealed <==> 2 * Transparent() > PixelCount())
      && revealCalls == (if isRevealed then 1 else 0)
    }

    /** Mounting the component: the canvas is sized to the rectangle times
        the pixel ratio and painted with the opaque cover. */
    constructor (mount: Layout)
      requires mount.width > 0 && mount.height > 0
      ensures Valid() && fresh(pixels) && this.mount == mount
      ensures dpr == if mount.devicePixelRatio == 0 then 1 else mount.devicePixelRatio
      ensures width == mount.width * dpr && height == mount.height * dpr
      ensures forall j :: 0 <= j < pixels.Length ==> pixels[j] == 255
      ensures !isScratching && !isRevealed && revealCalls == 0
      ensures scratchPercentage == 0.0 && Transparent() == 0
    {
      var ratio := if mount.devicePixelRatio == 0 then 1 else mount.devicePixelRatio;
      var w := mount.width * ratio;
      var h := mount.height * ratio;
      MulAtLeast(mount.width, ratio);
      MulAtLeast(mount.height, ratio);
      MulAtLeast(w, h);
      var n := w * h;
      this.mount := mount;
      this.dpr := ratio;
      this.width := w;
      this.height := h;
      this.pixels := new int[4 * n](i => 255);
      isScratching := false;
      isRevealed := false;
      revealCalls := 0;
      scratchPercentage := 0.0;
      new;
      ghost var cover := pixels[..];
      assert forall j :: 0 <= j < n ==> Alpha(cover, j) == 255;
      OpaqueCountsZero(cover, n);
      assert Percent(0, n) == 0.0;
    }

    /** The disc a stroke at `p` fills when the card's layout reads `at`:
        the context keeps the scale set at mount. */
    function StrokeDisc(p: Point, at: Layout): Option<Disc>
    {
      BrushDiscAsWritten(p, at, width, height, dpr)
    }

    /** The effect of one `scratch(x, y)` call under layout `at`: nothing on
        a revealed card; otherwise the stroke's disc is erased, the
        percentage is re-measured, and the card is revealed, with `onReveal`
        called once, exactly when more than half of it is now erased. */
    twostate predicate Scratched(p: Point, at: Layout, fired: bool)
      reads this, pixels
    {
      && width > 0 && old(IsByteBuffer(pixels[..]))
      && PixelCount() > 0 && pixels.Length == 4 * PixelCount()
      && if old(isRevealed) then
           && pixels[..] == old(pixels[..])
           && scratchPercentage == old(scratchPercentage)
           && isRevealed && revealCalls == old(revealCalls) && !fired
         else
           && pixels[..] == Erased(old(pixels[..]), width, StrokeDisc(p, at))
           && scratchPercentage == Percent(Transparent(), PixelCount())
           && fired == (2 * Transparent() > PixelCount())
           && isRevealed == fired
           && revealCalls == old(revealCalls) + (if fired then 1 else 0)
    }

    /** Nothing the measurement or the reveal depend on changes. */
    twostate predicate Untouched(fired: bool)
      reads this, pixels
    {
      && pixels[..] == old(pixels[..])
      && scratchPercentage == old(scratchPercentage)
      && isRevealed == old(isRevealed)
      && revealCalls == old(revealCalls)
      && !fired
    }

    /** The counting loop of `checkScratchPercentage`: the alpha bytes at
        offsets 3, 7, 11, ... that are below 128. It only reads the buffer. */
    method CountTransparent() returns (transparent: nat)
      ensures transparent == TransparentCount(pixels[..], pixels.Length / 4)
      ensures transparent <= pixels.Length / 4
    {
      transparent := 0;
      var i := 3;
      ghost var k := 0;
      while i < pixels.Length
        invariant i == 4 * k + 3 && 4 * k <= pixels.Length
        invariant transparent == TransparentCount(pixels[..], k)
      {
        if pixels[i] < AlphaThreshold {
          transparent := transparent + 1;
        }
        i := i + 4;
        k := k + 1;
      }
      assert k == pixels.Length / 4;
    }

    /** `checkScratchPercentage`: measure, publish the percentage, and reveal
        if more than half is erased and the card is not yet revealed. */
    method CheckScratchPercentage() returns (fired: bool)
      requires PixelCount() > 0 && pixels.Length == 4 * PixelCount()
      modifies this
      ensures scratchPercentage == Percent(Transparent(), PixelCount())
      ensures fired == (!old(isRevealed) && 2 * Transparent() > PixelCount())
      ensures isRevealed == (old(isRevealed) || fired)
      ensures revealCalls == old(revealCalls) + (if fired then 1 else 0)
      ensures isScratching == old(isScratching)
    {
      var transparent := CountTransparent();
      var percentage := Percent(transparent, pixels.Length / 4);
      scratchPercentage := percentage;
      RevealThreshold(transparent, PixelCount());
      fired := false;
      if percentage > 50.0 && !isRevealed {
        isRevealed := true;
        revealCalls := revealCalls + 1;
        fired := true;
      }
    }

    /** Filling the brush disc with `destination-out`; with no disc the
        fill covers nothing. */
    method EraseDisc(d: Option<Disc>)
      requires width > 0 && IsByteBuffer(pixels[..])
      modifies pixels
      ensures pixels[..] == Erased(old(pixels[..]), width, d)
    {
      ghost var before := pixels[..];
      forall i | 0 <= i < pixels.Length && i % 4 == 3 {
        pixels[i] := DestinationOut(pixels[i], Coverage(i / 4 % width, i / 4 / width, d));
      }
      assert pixels[..] == Erased(before, width, d);
    }

    /** `scratch`: a revealed card ignores the stroke; otherwise the layout
        `at` read now gives the scale from pointer to canvas, the arc is
        filled under the context's mount-time scale, and the percentage is
        checked. */
    method Scratch(p: Point, at: Layout) returns (fired: bool)
      requires Valid()
      modifies this, pixels
      ensures Valid() && Scratched(p, at, fired)
      ensures isScratching == old(isScratching)
      ensures old(Transparent()) <= Transparent()
    {
      if isRevealed {
        return false;
      }
      var disc := StrokeDisc(p, at);
      ghost var before := pixels[..];
      EraseDisc(disc);
      CountMonotone(before, pixels[..], PixelCount());
      fired := CheckScratchPercentage();
    }

    method HandleMouseDown(p: Point, at: Layout) returns (fired: bool)
      requires Valid()
      modifies this, pixels
      ensures Valid() && Scratched(p, at, fired) && isScratching
      ensures old(Transparent()) <= Transparent()
    {
      isScratching := true;
      fired := Scratch(p, at);
    }

    method HandleMouseMove(p: Point, at: Layout) returns (fired: bool)
      requires Valid()
      modifies this, pixels
      ensures Valid() && isScratching == old(isScratching)
      ensures if old(isScratching) then Scratched(p, at, fired) else Untouched(fired)
      ensures old(Transparent()) <= Transparent()
    {
      fired := false;
      if isScratching {
        fired := Scratch(p, at);
      }
    }

    /** Also the handler for the mouse leaving the canvas. */
    method HandleMouseUp()
      requires Valid()
      modifies this
      ensures Valid() && !isScratching && Untouched(false)
    {
      isScratching := false;
    }

    /** Scratches at the first touch point. */
    method HandleTouchStart(touches: seq<Point>, at: Layout) returns (fired: bool)
      requires Valid() && |touches| > 0
      modifies this, pixels
      ensures Valid() && Scratched(touches[0], at, fired) && isScratching
      ensures old(Transparent()) <= Transparent()
    {
      isScratching := true;
      var touch := touches[0];
      fired := Scratch(touch, at);
    }

    method HandleTouchMove(touches: seq<Point>, at: Layout) returns (fired: bool)
      requires Valid() && (isScratching ==> |touches| > 0)
      modifies this, pixels
      ensures Valid() && isScratching == old(isScratching)
      ensures if old(isScratching) then Scratched(touches[0], at, fired) else Untouched(fired)
      ensures old(Transparent()) <= Transparent()
    {
      fired := false;
      if isScratching {
        var touch := touches[0];
        fired := Scratch(touch, at);
      }
    }

    method HandleTouchEnd()
      requires Valid()
      modifies this
      ensures Valid() && !isScratching && Untouched(false)
    {
      isScratching := false;
    }

    /** The canvas's event wiring: one event to its handler, with `at` the
        layout the handler reads. `fired` says whether `onReveal` was called
        while handling it. */
    method Dispatch(e: PointerEvent, at: Layout) returns (fired: bool)
      requires Valid()
      requires e.TouchStart? || (e.TouchMove? && isScratching) ==> |e.touches| > 0
      modifies this, pixels
      ensures Valid()
      ensures isScratching == (e.MouseDown? || e.TouchStart? || (old(isScratching) && (e.MouseMove? || e.TouchMove?)))
      ensures fired <==> !old(isRevealed) && isRevealed
      ensures old(isRevealed) ==> isRevealed && Untouched(fired)
      ensures revealCalls <= 1 && 0.0 <= scratchPercentage <= 100.0
      ensures old(Transparent()) <= Transparent()
      ensures (e.MouseUp? || e.MouseLeave? || e.TouchEnd?) ==> Untouched(fired)
      ensures (e.MouseMove? || e.TouchMove?) && !old(isScratching) ==> Untouched(fired)
      ensures e.MouseDown? || (e.MouseMove? && old(isScratching)) ==> Scratched(e.p, at, fired)
      ensures e.TouchStart? || (e.TouchMove? && old(isScratching)) ==> Scratched(e.touches[0], at, fired)
    {
      match e {
        case MouseDown(p) => fired := HandleMouseDown(p, at);
        case MouseMove(p) => fired := HandleMouseMove(p, at);
        case MouseUp => HandleMouseUp(); fired := false;
        case MouseLeave => HandleMouseUp(); fired := false;
        case TouchStart(touches) => fired := HandleTouchStart(touches, at);
        case TouchMove(touches) => fired := HandleTouchMove(touches, at);
        case TouchEnd => HandleTouchEnd(); fired := false;
      }
      PercentInRange(Transparent(), PixelCount());
    }
  }

  /** The scale example as the card runs it: at ratio 2, the point
      (100, 100) of a 300 x 200 card at the client origin is filled at
      canvas point (400, 400) with radius 120. */
  method ScaleExampleAsWritten() returns (disc: Option<Disc>)
    ensures disc == Some(Disc(400.0, 400.0, 120.0))
  {
    var at := Layout(0, 0, 300, 200, 2);
    var card := new ScratchCard(at);
    disc := card.StrokeDisc(Point(100, 100), at);
  }

  /** A press at (200, 150), over the lower right quarter of that card,
      leaves every pixel of the canvas covered. */
  method StrokeOffCanvasExample() returns (erased: nat)
    ensures erased == 0
  {
    var at := Layout(0, 0, 300, 200, 2);
    var card := new ScratchCard(at);
    ghost var cover := card.pixels[..];
    AsWrittenMissesCanvas(cover);
    var fired := card.HandleMouseDown(Point(200, 150), at);
    erased := card.CountTransparent();
  }
}
