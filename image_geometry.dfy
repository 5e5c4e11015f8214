/** The geometry helpers of ImageStudio.tsx: unit conversion for resizing,
    the passport templates and their centred crop, the normalised selection
    rectangle, and the fit of an overlay into 80% of the canvas. */
module ImageGeometry {
  import opened Numeric

  // ---------------------------------------------------------------------
  // Units.

  /** `toPixels(val, unit, dpi)`: pixels stay, inches scale by the dpi,
      millimetres and centimetres go through inches; any other unit is
      taken as pixels. */
  function ToPixels(val: real, unit: string, dpi: real): (px: real)
    ensures unit == "in" ==> px == val * dpi
    ensures unit !in {"in", "mm", "cm"} ==> px == val
  {
    if unit == "px" then val
    else if unit == "in" then val * dpi
    else if unit == "mm" then (val / 25.4) * dpi
    else if unit == "cm" then (val / 2.54) * dpi
    else val
  }

  /** Ten millimetres are one centimetre, and 25.4 millimetres one inch. */
  lemma UnitsAgree(v: real, dpi: real)
    ensures ToPixels(10.0 * v, "mm", dpi) == ToPixels(v, "cm", dpi)
    ensures ToPixels(25.4 * v, "mm", dpi) == ToPixels(v, "in", dpi)
    ensures ToPixels(2.54 * v, "cm", dpi) == ToPixels(v, "in", dpi)
  {
    assert (10.0 * v) / 25.4 == v / 2.54;
    assert (25.4 * v) / 25.4 == v;
    assert (2.54 * v) / 2.54 == v;
  }

  /** The conversion is linear in the value for every unit. */
  lemma ToPixelsLinear(a: real, b: real, unit: string, dpi: real)
    ensures ToPixels(a + b, unit, dpi) == ToPixels(a, unit, dpi) + ToPixels(b, unit, dpi)
  {
    if unit == "mm" {
      assert ((a + b) / 25.4) * dpi == (a / 25.4) * dpi + (b / 25.4) * dpi;
    } else if unit == "cm" {
      assert ((a + b) / 2.54) * dpi == (a / 2.54) * dpi + (b / 2.54) * dpi;
    } else if unit == "in" {
      assert (a + b) * dpi == a * dpi + b * dpi;
    }
  }

  /** `handleResize`'s target: the converted size, rounded. A whole number
      of pixels given in pixels is kept exactly. */
  function ResizeTarget(val: real, unit: string, dpi: real): int
  {
    Round(ToPixels(val, unit, dpi))
  }

  lemma ResizeKeepsWholePixels(n: int, dpi: real)
    ensures ResizeTarget(n as real, "px", dpi) == n
  {
  }

  // ---------------------------------------------------------------------
  // Passport templates.

  datatype Template = Template(w: nat, h: nat, ratio: real)

  /** `PASSPORT_TEMPLATES[key]`. */
  function PassportTemplate(key: string): (t: Option<Template>)
    ensures t.Some? ==> t.value.w > 0 && t.value.h > 0 && 0.7 < t.value.ratio <= 1.0
  {
    if key == "US" || key == "India" then Some(Template(600, 600, 1.0))
    else if key == "UK_EU" || key == "Japan" || key == "Schengen" then Some(Template(413, 531, 0.77))
    else if key == "Canada" then Some(Template(420, 540, 0.71))
    else None
  }

  /** The template is applied in two steps: the image is cropped to
      `ratio`, then resized to `w` x `h` pixels. The resize stretches the
      crop horizontally by this factor relative to the vertical one; the
      picture stays undistorted exactly when it is 1. */
  function TemplateStretch(t: Template): real
    requires t.h > 0 && t.ratio > 0.0
  {
    t.w as real / (t.h as real * t.ratio)
  }

  /** As written, the 35x45 mm and square templates stay within about 1%
      of undistorted, but the Canada template crops at 0.71 and is then
      resized to 420 x 540 (0.78): faces come out about 9% too wide. */
  lemma CanadaTemplateStretches()
    ensures TemplateStretch(PassportTemplate("US").value) == 1.0
    ensures 1.0 < TemplateStretch(PassportTemplate("UK_EU").value) < 1.02
    ensures TemplateStretch(PassportTemplate("Canada").value) > 1.09
  {
    assert 420.0 > 1.09 * (540.0 * 0.71);
    assert 413.0 < 1.02 * (531.0 * 0.77);
  }

  /** The intended table: each crop ratio is the template's own pixel width
      over its height, so the resize after the crop keeps proportions. */
  function ExactTemplate(key: string): (t: Option<Template>)
    ensures t.Some? ==> t.value.w > 0 && t.value.h > 0 && t.value.ratio > 0.0
    ensures t.Some? <==> PassportTemplate(key).Some?
    ensures t.Some? ==> t.value.w == PassportTemplate(key).value.w && t.value.h == PassportTemplate(key).value.h
  {
    match PassportTemplate(key)
    case None => None
    case Some(p) => Some(Template(p.w, p.h, p.w as real / p.h as real))
  }

  lemma ExactTemplateUndistorted(key: string)
    requires ExactTemplate(key).Some?
    ensures TemplateStretch(ExactTemplate(key).value) == 1.0
  {
    var t := ExactTemplate(key).value;
    assert t.h as real * (t.w as real / t.h as real) == t.w as real;
  }

  /** The crop before rounding. */
  datatype Crop = Crop(w: real, h: real, x: real, y: real)

  /** `applyPassportTemplate`'s centre crop of a `width` x `height` image:
      a wider image keeps its height and loses width, any other keeps its
      width and loses height. */
  function CentreCrop(width: nat, height: nat, ratio: real): (c: Crop)
    requires width > 0 && height > 0 && ratio > 0.0
  {
    var imgRatio := width as real / height as real;
    var w := if imgRatio > ratio then height as real * ratio else width as real;
    var h := if imgRatio > ratio then height as real else width as real / ratio;
    Crop(w, h, (width as real - w) / 2.0, (height as real - h) / 2.0)
  }

  lemma MulLe(a: real, b: real, c: real)
    requires a <= b && c >= 0.0
    ensures a * c <= b * c
  {
    assert b * c - a * c == (b - a) * c;
  }

  /** The crop has the template's aspect ratio, spans the whole image in one
      direction, lies inside the image, and is centred: equal margins on
      both sides. */
  lemma CentreCropFits(width: nat, height: nat, ratio: real)
    requires width > 0 && height > 0 && ratio > 0.0
    ensures var c := CentreCrop(width, height, ratio);
            && c.w == ratio * c.h
            && (c.w == width as real || c.h == height as real)
            && 0.0 < c.w <= width as real && 0.0 < c.h <= height as real
            && c.x >= 0.0 && c.y >= 0.0
            && c.x + c.w + c.x == width as real && c.y + c.h + c.y == height as real
  {
    var W := width as real;
    var H := height as real;
    var imgRatio := W / H;
    assert imgRatio * H == W;
    if imgRatio > ratio {
      MulLe(ratio, imgRatio, H);
    } else {
      assert W / ratio * ratio == W;
      MulLe(imgRatio, ratio, H);
      assert W <= ratio * H;
      assert W / ratio <= H by {
        assert (W / ratio) * ratio == W;
        assert (W / ratio) * ratio - H * ratio == (W / ratio - H) * ratio;
      }
    }
  }

  /** `Math.round` of a centred span: the rounded offset plus the rounded
      size never reach past the image edge. */
  lemma RoundedSpanInside(total: nat, span: real)
    requires 0.0 <= span <= total as real
    ensures Round((total as real - span) / 2.0) + Round(span) <= total
    ensures Round((total as real - span) / 2.0) >= 0
  {
    var T := total as real;
    var x := (T - span) / 2.0;
    var rx := Round(x);
    var rw := Round(span);
    if rx >= 1 {
      assert x >= 0.5;
      assert span <= T - 1.0;
      assert rw as real <= span + 0.5;
      assert rx as real <= x + 0.5;
    }
  }

  /** The crop that `applyPassportTemplate` stores, each value rounded;
      after rounding it still lies inside the image. */
  function RoundedCrop(width: nat, height: nat, ratio: real): (r: (int, int, int, int))
    requires width > 0 && height > 0 && ratio > 0.0
    ensures var (w, h, x, y) := r;
            0 <= x && 0 <= y && x + w <= width && y + h <= height
  {
    var c := CentreCrop(width, height, ratio);
    CentreCropFits(width, height, ratio);
    RoundedSpanInside(width, c.w);
    RoundedSpanInside(height, c.h);
    (Round(c.w), Round(c.h), Round(c.x), Round(c.y))
  }

  /** What `applyPassportTemplate` sets: the resize target in pixels and,
      when an image is loaded, the rounded centre crop (width, height, x,
      y). An unknown key changes nothing. */
  datatype PassportSetting = PassportSetting(width: nat, height: nat, crop: Option<(int, int, int, int)>)

  /** `applyPassportTemplate` as written: the resize target is the table's
      pixel size and the crop is the rounded centre crop at the table's own
      `ratio`, which `CentreCropFits` shows to have that ratio, to span the
      image in one direction and to be centred. */
  function ApplyPassportTemplate(key: string, image: Option<(nat, nat)>): (r: Option<PassportSetting>)
    requires image.Some? ==> image.value.0 > 0 && image.value.1 > 0
    ensures r.Some? <==> PassportTemplate(key).Some?
    ensures r.Some? ==> r.value.width == PassportTemplate(key).value.w && r.value.height == PassportTemplate(key).value.h
    ensures r.Some? ==> (r.value.crop.Some? <==> image.Some?)
    ensures r.Some? && image.Some? ==>
              var c := CentreCrop(image.value.0, image.value.1, PassportTemplate(key).value.ratio);
              r.value.crop.value == (Round(c.w), Round(c.h), Round(c.x), Round(c.y))
    ensures r.Some? && image.Some? ==>
              var (w, h, x, y) := r.value.crop.value;
              0 <= x && 0 <= y && x + w <= image.value.0 && y + h <= image.value.1
  {
    match PassportTemplate(key)
    case None => None
    case Some(t) =>
      var crop := match image
        case None => None
        case Some((iw, ih)) => Some(RoundedCrop(iw, ih, t.ratio));
      Some(PassportSetting(t.w, t.h, crop))
  }

  /** The handler with the intended table: the same resize target, and a
      crop at the pixel size's own aspect ratio, which the resize then
      keeps undistorted (`ExactTemplateUndistorted`). */
  function ApplyPassportTemplateIntended(key: string, image: Option<(nat, nat)>): (r: Option<PassportSetting>)
    requires image.Some? ==> image.value.0 > 0 && image.value.1 > 0
    ensures r.Some? <==> PassportTemplate(key).Some?
    ensures r.Some? ==> r.value.width == PassportTemplate(key).value.w && r.value.height == PassportTemplate(key).value.h
    ensures r.Some? ==> (r.value.crop.Some? <==> image.Some?)
    ensures r.Some? && image.Some? ==>
              var c := CentreCrop(image.value.0, image.value.1, r.value.width as real / r.value.height as real);
              r.value.crop.value == (Round(c.w), Round(c.h), Round(c.x), Round(c.y))
    ensures r.Some? && image.Some? ==>
              var (w, h, x, y) := r.value.crop.value;
              0 <= x && 0 <= y && x + w <= image.value.0 && y + h <= image.value.1
  {
    match ExactTemplate(key)
    case None => None
    case Some(t) =>
      var crop := match image
        case None => None
        case Some((iw, ih)) => Some(RoundedCrop(iw, ih, t.ratio));
      Some(PassportSetting(t.w, t.h, crop))
  }

  /** On a square 1000 x 1000 image the two handlers crop differently for
      the 35x45 mm templates: the written table crops 770 pixels wide at
      offset 115, the intended one 778 at offset 111. */
  lemma SquareImageCrops()
    ensures ApplyPassportTemplate("UK_EU", Some((1000, 1000))).value.crop == Some((770, 1000, 115, 0))
    ensures ApplyPassportTemplateIntended("UK_EU", Some((1000, 1000))).value.crop == Some((778, 1000, 111, 0))
  {
    var c := CentreCrop(1000, 1000, 0.77);
    assert c == Crop(770.0, 1000.0, 115.0, 0.0);
    FloorOfInt(770);
    FloorOfInt(115);
    FloorOfInt(1000);
    FloorOfInt(0);
    var e := CentreCrop(1000, 1000, 413.0 / 531.0);
    assert e.w == 413000.0 / 531.0;
    assert 777.5 <= e.w < 778.5;
    assert 110.5 <= e.x < 111.5 by {
      assert e.x == (1000.0 - e.w) / 2.0;
    }
  }

  // ---------------------------------------------------------------------
  // Selection rectangle.

  /** A selection as dragged: the corner where the drag began and a signed
      extent. */
  datatype Rect = Rect(x: real, y: real, w: real, h: real)

  function AbsR(v: real): (r: real)
    ensures r >= 0.0 && (r == v || r == -v)
  {
    if v < 0.0 then -v else v
  }

  /** `stopDrawing`'s normalisation: move the corner to the top left and
      make the extent non-negative. */
  function Normalized(r: Rect): (n: Rect)
    ensures n.w >= 0.0 && n.h >= 0.0
  {
    Rect(if r.w < 0.0 then r.x + r.w else r.x,
         if r.h < 0.0 then r.y + r.h else r.y,
         AbsR(r.w), AbsR(r.h))
  }

  /** A point of the dragged rectangle: between the start and the end of
      the drag on each axis, in either order. */
  predicate InDrag(r: Rect, px: real, py: real)
  {
    MinR(r.x, r.x + r.w) <= px <= MaxR(r.x, r.x + r.w)
    && MinR(r.y, r.y + r.h) <= py <= MaxR(r.y, r.y + r.h)
  }

  /** A point of a rectangle with non-negative extent. */
  predicate InBox(r: Rect, px: real, py: real)
  {
    r.x <= px <= r.x + r.w && r.y <= py <= r.y + r.h
  }

  /** The normalised rectangle covers exactly the dragged one, and
      normalising again changes nothing. */
  lemma NormalizedCoversDrag(r: Rect, px: real, py: real)
    ensures InBox(Normalized(r), px, py) <==> InDrag(r, px, py)
    ensures Normalized(Normalized(r)) == Normalized(r)
  {
  }

  // ---------------------------------------------------------------------
  // Overlay fit.

  /** `handleAddOverlay`: the overlay scaled by the smaller of the two
      factors that bring it to 80% of the canvas, centred. */
  function OverlayFit(cw: real, ch: real, iw: real, ih: real): (r: Rect)
    requires cw > 0.0 && ch > 0.0 && iw > 0.0 && ih > 0.0
  {
    var scale := MinR((cw * 0.8) / iw, (ch * 0.8) / ih);
    var w := iw * scale;
    var h := ih * scale;
    Rect((cw - w) / 2.0, (ch - h) / 2.0, w, h)
  }

  /** The fitted overlay is at most 80% of the canvas in each direction and
      exactly 80% in one, keeps the overlay's aspect ratio, and has equal
      margins on opposite sides. */
  lemma OverlayFitBounds(cw: real, ch: real, iw: real, ih: real)
    requires cw > 0.0 && ch > 0.0 && iw > 0.0 && ih > 0.0
    ensures var r := OverlayFit(cw, ch, iw, ih);
            && 0.0 < r.w <= 0.8 * cw && 0.0 < r.h <= 0.8 * ch
            && (r.w == 0.8 * cw || r.h == 0.8 * ch)
            && r.w * ih == r.h * iw
            && r.x + r.w + r.x == cw && r.y + r.h + r.y == ch
            && r.x >= 0.1 * cw && r.y >= 0.1 * ch
  {
    var sx := (cw * 0.8) / iw;
    var sy := (ch * 0.8) / ih;
    var scale := MinR(sx, sy);
    assert sx * iw == cw * 0.8;
    assert sy * ih == ch * 0.8;
    MulLe(scale, sx, iw);
    MulLe(scale, sy, ih);
    assert iw * scale * ih == ih * scale * iw;
  }
}
