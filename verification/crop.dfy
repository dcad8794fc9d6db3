/** The square detail cut out of a card image for the picture round, and the
    random choice of the card. Fractions of the image size are exact
    rationals; Python's `int()` of a non-negative product is its floor. A
    random draw is an arbitrary natural number folded into the range. */
module Crop {
  import opened Wrappers

  /** A non-negative fraction `num / den`. */
  datatype Fraction = Fraction(num: nat, den: nat) {
    predicate Valid() { den > 0 }
    predicate AtMostOne() { Valid() && num <= den }
  }

  /** `int(n * f)` for a size `n` and a fraction `f`. */
  function Scale(n: nat, f: Fraction): (r: nat)
    requires f.Valid()
    ensures f.AtMostOne() ==> r <= n
    ensures r * f.den <= n * f.num < (r + 1) * f.den
  {
    FloorFacts(n * f.num, f.den);
    if f.num <= f.den then
      assert n * f.num <= n * f.den by { MulMono(n, f.num, f.den); }
      DivBelow(n * f.num, f.den, n);
      n * f.num / f.den
    else n * f.num / f.den
  }

  lemma MulMono(n: nat, a: nat, b: nat)
    requires a <= b
    ensures n * a <= n * b
  {
  }

  lemma FloorFacts(x: nat, d: nat)
    requires d > 0
    ensures (x / d) * d <= x < (x / d + 1) * d
  {
  }

  lemma DivBelow(x: nat, d: nat, n: nat)
    requires d > 0 && x <= n * d
    ensures x / d <= n
  {
    FloorFacts(x, d);
  }

  /** `TypeImageCropConfig`: the inset window and the side of the square, as fractions. */
  datatype CropConfig = CropConfig(left: Fraction, top: Fraction, right: Fraction, bottom: Fraction, wsize: Fraction) {
    predicate Valid() {
      left.Valid() && top.Valid() && right.Valid() && bottom.Valid() && wsize.Valid()
    }
    /** Every fraction lies in [0, 1]. */
    predicate Proper() {
      left.AtMostOne() && top.AtMostOne() && right.AtMostOne() && bottom.AtMostOne() && wsize.AtMostOne()
    }
  }

  /** `DEFAULT_IMAGE_CROP_CONFIG` of the base engine (utils/engines/_base.py). */
  const BaseConfig := CropConfig(Fraction(138, 1000), Fraction(185, 1000), Fraction(860, 1000), Fraction(860, 1000), Fraction(20, 100))
  /** The svgdb engines' whole-image window (utils/engines/_svgdb.py). */
  const SvgdbConfig := CropConfig(Fraction(0, 1), Fraction(0, 1), Fraction(1, 1), Fraction(1, 1), Fraction(20, 100))
  /** The bagoum engines' window (utils/engines/_bagoum.py). */
  const BagoumConfig := CropConfig(Fraction(13619, 100000), Fraction(19466, 100000), Fraction(86349, 100000), Fraction(86945, 100000), Fraction(20, 100))

  /** The truncated integers of one crop: the ranges `[x0, x1]` and `[y0, y1]`
      of the top-left corner and the side `ws`. */
  datatype Window = Window(x0: int, y0: int, x1: int, y1: int, ws: int)

  /** The window of `get_std_card_image_crop` for a `w` by `h` image. */
  function CropWindow(w: nat, h: nat, cfg: CropConfig): (win: Window)
    requires cfg.Valid()
    ensures win.ws == Scale(h, cfg.wsize)
    ensures win.x0 == Scale(w, cfg.left) && win.x1 + win.ws == Scale(w, cfg.right)
    ensures win.y0 == Scale(h, cfg.top) && win.y1 + win.ws == Scale(h, cfg.bottom)
  {
    var ws := Scale(h, cfg.wsize);
    Window(Scale(w, cfg.left), Scale(h, cfg.top), Scale(w, cfg.right) - ws, Scale(h, cfg.bottom) - ws, ws)
  }

  /** The crop rectangle `(left, top, right, bottom)`. */
  datatype Box = Box(left: int, top: int, right: int, bottom: int)

  /** `random.randint(lo, hi)` for `lo <= hi`: the draw folded into the range. */
  function Pick(lo: int, hi: int, draw: nat): (r: int)
    requires lo <= hi
    ensures lo <= r <= hi
  {
    lo + draw % (hi - lo + 1)
  }

  /** Every value of the range is some draw's pick. */
  lemma PickReaches(lo: int, hi: int, v: int)
    requires lo <= v <= hi
    ensures Pick(lo, hi, v - lo) == v
  {
  }

  /** The crop of a window: `randint` raises ValueError on an empty range. */
  function CropBox(win: Window, dx: nat, dy: nat): (r: Result<Box>)
    ensures r.Crash? <==> win.x0 > win.x1 || win.y0 > win.y1
    ensures r.Crash? ==> r.fault == ValueError
    ensures r.Ok? ==> r.value.right - r.value.left == win.ws && r.value.bottom - r.value.top == win.ws
    ensures r.Ok? ==> win.x0 <= r.value.left <= win.x1 && win.y0 <= r.value.top <= win.y1
  {
    if win.x0 > win.x1 then Crash(ValueError)
    else if win.y0 > win.y1 then Crash(ValueError)
    else
      var x := Pick(win.x0, win.x1, dx);
      var y := Pick(win.y0, win.y1, dy);
      Ok(Box(x, y, x + win.ws, y + win.ws))
  }

  /** Every top-left corner of the ranges is produced by some pair of draws. */
  lemma CropReaches(win: Window, x: int, y: int)
    requires win.x0 <= x <= win.x1 && win.y0 <= y <= win.y1
    ensures CropBox(win, x - win.x0, y - win.y0) == Ok(Box(x, y, x + win.ws, y + win.ws))
  {
    PickReaches(win.x0, win.x1, x);
    PickReaches(win.y0, win.y1, y);
  }

  /** `get_std_card_image_crop(image, config)`. */
  function CardCrop(w: nat, h: nat, cfg: CropConfig, dx: nat, dy: nat): Result<Box>
    requires cfg.Valid()
  {
    CropBox(CropWindow(w, h, cfg), dx, dy)
  }

  /** With fractions in [0, 1] the square lies inside the image and inside
      the inset window. */
  lemma CardCropInside(w: nat, h: nat, cfg: CropConfig, dx: nat, dy: nat)
    requires cfg.Valid() && cfg.Proper()
    ensures var r := CardCrop(w, h, cfg, dx, dy);
      r.Ok? ==>
        && 0 <= r.value.left && r.value.right <= Scale(w, cfg.right) <= w
        && 0 <= r.value.top && r.value.bottom <= Scale(h, cfg.bottom) <= h
  {
  }

  /** A 1000 by 1000 image under the base window: the corner ranges over
      [138, 660] by [185, 660] and the square has side 200. */
  lemma BaseCropExample()
    ensures CropWindow(1000, 1000, BaseConfig) == Window(138, 185, 660, 660, 200)
  {
  }

  /** `crop_card_image(image, config)` in games/utils.py as written: the
      lower bound of the corner's vertical range scales the width. */
  function LegacyWindow(w: nat, h: nat, cfg: CropConfig): (win: Window)
    requires cfg.Valid()
    ensures win.ws == Scale(h, cfg.wsize) && win.y1 + win.ws == Scale(w, cfg.bottom)
  {
    var ws := Scale(h, cfg.wsize);
    Window(Scale(w, cfg.left), Scale(h, cfg.top), Scale(w, cfg.right) - ws, Scale(w, cfg.bottom) - ws, ws)
  }

  /** On a 2000 by 1000 image with the whole-image window, the legacy crop can
      place the square's bottom edge at 2000, below the image's last row. */
  lemma LegacyCropLeavesImage()
    ensures var win := LegacyWindow(2000, 1000, SvgdbConfig);
      win.y1 == 1800 && CropBox(win, 0, 1800) == Ok(Box(0, 1800, 200, 2000))
  {
    assert Scale(1000, Fraction(20, 100)) == 200;
    assert Scale(2000, Fraction(1, 1)) == 2000;
    assert Scale(2000, Fraction(0, 1)) == 0 && Scale(1000, Fraction(0, 1)) == 0;
    var win := LegacyWindow(2000, 1000, SvgdbConfig);
    assert win == Window(0, 0, 1800, 1800, 200);
    PickReaches(0, 1800, 0);
    PickReaches(0, 1800, 1800);
  }

  /** The evidently intended legacy crop scales the height, as the engines'
      crop does; it then stays inside the image. */
  function LegacyCrop(w: nat, h: nat, cfg: CropConfig, dx: nat, dy: nat): (r: Result<Box>)
    requires cfg.Valid() && cfg.Proper()
    ensures r.Ok? ==> 0 <= r.value.left && r.value.right <= w && 0 <= r.value.top && r.value.bottom <= h
    ensures r == CardCrop(w, h, cfg, dx, dy)
  {
    CardCropInside(w, h, cfg, dx, dy);
    CardCrop(w, h, cfg, dx, dy)
  }

  /** `random.choice(cards)`: IndexError on an empty list, otherwise a member. */
  function Choose<T>(cards: seq<T>, draw: nat): (r: Result<T>)
    ensures r.Crash? <==> |cards| == 0
    ensures r.Crash? ==> r.fault == IndexError
    ensures r.Ok? ==> r.value in cards
  {
    if |cards| == 0 then Crash(IndexError) else Ok(cards[draw % |cards|])
  }

  /** Every card can be the one chosen. */
  lemma ChooseReaches<T>(cards: seq<T>, k: nat)
    requires k < |cards|
    ensures Choose(cards, k) == Ok(cards[k])
  {
    assert k % |cards| == k;
  }
}
