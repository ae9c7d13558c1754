/**
 * `resizeBook`'s arithmetic: the margin, the single/double breakpoint, the
 * aspect ratio of what is shown, and fitting that ratio into the available box.
 * Numbers are exact reals.
 */
module Layout {

  const BOOK_WIDTH: real := 920.0
  const BOOK_HEIGHT: real := 650.0
  /** The width-to-height ratio of the double-page spread. */
  const ASPECT_RATIO: real := BOOK_WIDTH / BOOK_HEIGHT
  const BREAKPOINT: real := 600.0

  datatype DisplayMode = Single | Double

  datatype Size = Size(width: real, height: real, display: DisplayMode)

  function Margin(winWidth: real): real {
    if winWidth < 600.0 then 20.0 else 50.0
  }

  function Mode(winWidth: real): DisplayMode {
    if winWidth - Margin(winWidth) < BREAKPOINT then Single else Double
  }

  /** One page is half a spread. */
  function Ratio(mode: DisplayMode): (r: real)
    ensures r > 0.0
  {
    if mode == Single then ASPECT_RATIO / 2.0 else ASPECT_RATIO
  }

  /** What the caller must provide so that the height division is defined. */
  predicate LayoutDefined(winWidth: real, winHeight: real) {
    winHeight - Margin(winWidth) > 0.0
  }

  function ComputeLayout(winWidth: real, winHeight: real): Size
    requires LayoutDefined(winWidth, winHeight)
  {
    var margin := Margin(winWidth);
    var availWidth := winWidth - margin;
    var availHeight := winHeight - margin;
    var mode := if availWidth < BREAKPOINT then Single else Double;
    var ratio := Ratio(mode);
    if availWidth / availHeight > ratio then
      Size(availHeight * ratio, availHeight, mode)
    else
      Size(availWidth, availWidth / ratio, mode)
  }

  /**
   * The margin is 20 below a 600 wide window and 50 from there on; with it,
   * single mode holds exactly for windows narrower than 650, so windows from
   * 600 up to 650 show one page with the wide margin.
   */
  lemma Breakpoints(winWidth: real)
    ensures Margin(winWidth) == 20.0 <==> winWidth < 600.0
    ensures Margin(winWidth) == 50.0 <==> winWidth >= 600.0
    ensures Mode(winWidth) == Single <==> winWidth < 650.0
  {
  }

  lemma ModeOfLayout(winWidth: real, winHeight: real)
    requires LayoutDefined(winWidth, winHeight)
    ensures ComputeLayout(winWidth, winHeight).display == Mode(winWidth)
    ensures ComputeLayout(winWidth, winHeight).display == Double
        <==> winWidth - Margin(winWidth) >= BREAKPOINT
  {
  }

  lemma DivGreater(a: real, b: real, r: real)
    requires b > 0.0
    ensures a / b > r <==> a > r * b
  {
    assert a == (a / b) * b;
    if a / b > r {
      assert (a / b) * b > r * b;
    } else {
      assert (a / b) * b <= r * b;
    }
  }

  /**
   * With a positive available box, the book keeps the ratio of the display
   * mode, fits inside the box, and touches it on at least one side.
   */
  lemma LayoutFits(winWidth: real, winHeight: real)
    requires LayoutDefined(winWidth, winHeight)
    requires winWidth - Margin(winWidth) > 0.0
    ensures var s := ComputeLayout(winWidth, winHeight);
      var availWidth := winWidth - Margin(winWidth);
      var availHeight := winHeight - Margin(winWidth);
      && s.height > 0.0
      && s.width / s.height == Ratio(s.display)
      && 0.0 < s.width <= availWidth
      && 0.0 < s.height <= availHeight
      && (s.width == availWidth || s.height == availHeight)
  {
    var availWidth := winWidth - Margin(winWidth);
    var availHeight := winHeight - Margin(winWidth);
    var s := ComputeLayout(winWidth, winHeight);
    var ratio := Ratio(s.display);
    DivGreater(availWidth, availHeight, ratio);
    if availWidth / availHeight > ratio {
      assert s.width == availHeight * ratio;
      assert s.width / s.height == ratio;
    } else {
      assert s.height == availWidth / ratio;
      assert s.height * ratio == availWidth;
      assert availHeight * ratio >= availWidth;
      assert s.width / s.height == ratio;
    }
  }

  /**
   * The book is the largest box of the display mode's ratio that fits: any
   * other box of that ratio inside the available area is no larger.
   */
  lemma LayoutLargest(winWidth: real, winHeight: real, w: real, h: real)
    requires LayoutDefined(winWidth, winHeight)
    requires var s := ComputeLayout(winWidth, winHeight);
      w == h * Ratio(s.display) && h >= 0.0
    requires w <= winWidth - Margin(winWidth) && h <= winHeight - Margin(winWidth)
    ensures w <= ComputeLayout(winWidth, winHeight).width
    ensures h <= ComputeLayout(winWidth, winHeight).height
  {
    var availWidth := winWidth - Margin(winWidth);
    var availHeight := winHeight - Margin(winWidth);
    var s := ComputeLayout(winWidth, winHeight);
    var ratio := Ratio(s.display);
    if availWidth / availHeight > ratio {
      assert h * ratio <= availHeight * ratio;
    } else {
      assert h == w / ratio;
      assert w / ratio <= availWidth / ratio;
    }
  }

  /** A 1200 by 800 window: fitted by height, two pages. */
  lemma WideWindow()
    ensures ComputeLayout(1200.0, 800.0) == Size(750.0 * ASPECT_RATIO, 750.0, Double)
  {
    DivGreater(1150.0, 750.0, ASPECT_RATIO);
  }

  /** A 500 by 800 window: fitted by width, one page. */
  lemma NarrowWindow()
    ensures ComputeLayout(500.0, 800.0) == Size(480.0, 480.0 / (ASPECT_RATIO / 2.0), Single)
  {
    DivGreater(480.0, 780.0, ASPECT_RATIO / 2.0);
  }
}
