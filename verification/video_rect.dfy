/**
 * Letterbox geometry over the reals: where the video content sits inside its
 * element, which touches count, and where they land on the laptop's page.
 */
module VideoRect {
  import opened Basics

  datatype Size = Size(width: real, height: real)

  datatype Rect = Rect(x: real, y: real, width: real, height: real)

  const EPS := 0.001

  /** The letterboxed content inside the element box. */
  function ContentRect(element: Size, video: Size): Option<Rect> {
    if element.width <= 0.0 || element.height <= 0.0 || video.width <= 0.0 || video.height <= 0.0 then None
    else
      var elementRatio := element.width / element.height;
      var videoRatio := video.width / video.height;
      if elementRatio == videoRatio then Some(Rect(0.0, 0.0, element.width, element.height))
      else if elementRatio > videoRatio then
        var width := element.height * videoRatio;
        Some(Rect((element.width - width) / 2.0, 0.0, width, element.height))
      else
        var height := element.width / videoRatio;
        Some(Rect(0.0, (element.height - height) / 2.0, element.width, height))
  }

  function Clamp01(v: real): real { if v < 0.0 then 0.0 else if v > 1.0 then 1.0 else v }

  predicate NearUnit(v: real) { -EPS <= v <= 1.0 + EPS }

  /** A client point in normalized video coordinates; None is the letterbox. A degenerate rectangle gives no finite value. */
  function NormalizeIn(p: Vec, rect: Option<Rect>): Option<Vec> {
    if rect.None? || rect.value.width == 0.0 || rect.value.height == 0.0 then None
    else
      var nx := (p.x - rect.value.x) / rect.value.width;
      var ny := (p.y - rect.value.y) / rect.value.height;
      if !NearUnit(nx) || !NearUnit(ny) then None else Some(Vec(Clamp01(nx), Clamp01(ny)))
  }

  function NormalizePoint(p: Vec, element: Size, video: Size): Option<Vec> { NormalizeIn(p, ContentRect(element, video)) }

  function Denormalize(n: Vec, target: Size): Vec { Vec(n.x * target.width, n.y * target.height) }

  /** Where a unit point of the video is drawn. */
  function Place(n: Vec, r: Rect): Vec { Vec(r.x + n.x * r.width, r.y + n.y * r.height) }

  function Max(a: real, b: real): real { if a < b then b else a }

  function Min(a: real, b: real): real { if b < a then b else a }

  /** The last step before a command reaches the page. */
  function ClampCss(css: real, max: real): real { Min(Max(css, 0.0), Max(max - 0.01, 0.0)) }

  predicate Unit(n: Vec) { 0.0 <= n.x <= 1.0 && 0.0 <= n.y <= 1.0 }

  predicate Positive(s: Size) { s.width > 0.0 && s.height > 0.0 }

  // ----- arithmetic ---------------------------------------------------------------

  lemma DivMul(a: real, b: real)
    requires b != 0.0
    ensures a / b * b == a && a * b / b == a
  {
  }

  lemma MulMono(a: real, b: real, c: real)
    requires c > 0.0
    ensures a < b <==> a * c < b * c
    ensures a <= b <==> a * c <= b * c
  {
  }

  lemma MulPos(a: real, b: real)
    requires a > 0.0 && b > 0.0
    ensures a * b > 0.0 && a / b > 0.0
  {
    DivMul(a, b);
    MulMono(0.0, a / b, b);
  }

  // ----- the rectangle ---------------------------------------------------------------

  /** Inside the element, centred, and in the video's aspect ratio. */
  predicate Fits(r: Rect, element: Size, video: Size) {
    && r.width > 0.0 && r.height > 0.0
    && r.width <= element.width && r.height <= element.height
    && r.x + r.x + r.width == element.width
    && r.y + r.y + r.height == element.height
    && r.width * video.height == r.height * video.width
  }

  /** A wider element: bars left and right. */
  lemma WiderFits(element: Size, video: Size)
    requires Positive(element) && Positive(video) && element.width / element.height > video.width / video.height
    ensures var w := element.height * (video.width / video.height); 0.0 < w < element.width && w * video.height == element.height * video.width
  {
    var q := video.width / video.height;
    MulPos(video.width, video.height);
    MulPos(element.height, q);
    MulMono(q, element.width / element.height, element.height);
    DivMul(element.width, element.height);
    DivMul(video.width, video.height);
    assert element.height * q * video.height == element.height * (q * video.height);
  }

  /** A taller element: bars above and below. */
  lemma TallerFits(element: Size, video: Size)
    requires Positive(element) && Positive(video) && element.width / element.height < video.width / video.height
    ensures video.width / video.height > 0.0
    ensures var h := element.width / (video.width / video.height);
      0.0 < h < element.height && element.width * video.height == h * video.width
  {
    var q := video.width / video.height;
    MulPos(video.width, video.height);
    var h := element.width / q;
    MulPos(element.width, q);
    DivMul(element.width, q);
    DivMul(element.width, element.height);
    DivMul(video.width, video.height);
    MulMono(element.width / element.height, q, element.height);
    assert h * q < element.height * q;
    MulMono(h, element.height, q);
    assert h * (q * video.height) == h * q * video.height;
  }

  /** The rectangle exists exactly for positive sizes, and then it is centred inside the element with the video's ratio. */
  lemma ContentRectFits(element: Size, video: Size)
    ensures ContentRect(element, video).Some? <==> Positive(element) && Positive(video)
    ensures ContentRect(element, video).Some? ==> Fits(ContentRect(element, video).value, element, video)
  {
    if Positive(element) && Positive(video) {
      var e, v := element.width / element.height, video.width / video.height;
      if e > v {
        WiderFits(element, video);
      } else if e < v {
        TallerFits(element, video);
      } else {
        DivMul(element.width, element.height);
        DivMul(video.width, video.height);
        assert element.width * video.height == e * element.height * video.height == element.height * (v * video.height);
      }
    }
  }

  /** No rectangle of that ratio inside the element is larger. */
  lemma ContentRectIsLargest(element: Size, video: Size, w: real, h: real)
    requires Positive(element) && Positive(video)
    requires 0.0 < w <= element.width && 0.0 < h <= element.height && w * video.height == h * video.width
    ensures var r := ContentRect(element, video).value; w <= r.width && h <= r.height
  {
    var r := ContentRect(element, video).value;
    ContentRectFits(element, video);
    if r.width == element.width {
      assert h * video.width <= r.height * video.width by { MulMono(w, r.width, video.height); }
      MulMono(h, r.height, video.width);
    } else {
      assert r.height == element.height;
      assert w * video.height <= r.width * video.height by { MulMono(h, r.height, video.width); }
      MulMono(w, r.width, video.height);
    }
  }

  // ----- touches ---------------------------------------------------------------------------

  /** Drawing a unit point and normalizing the place gives the point back. */
  lemma NormalizeUndoesPlace(n: Vec, element: Size, video: Size)
    requires Unit(n) && Positive(element) && Positive(video)
    ensures NormalizePoint(Place(n, ContentRect(element, video).value), element, video) == Some(n)
  {
    hide ContentRect;
    ContentRectFits(element, video);
    var r := ContentRect(element, video).value;
    PlaceAxis(n.x, r.x, r.width);
    PlaceAxis(n.y, r.y, r.height);
    var p := Place(n, r);
    assert (p.x - r.x) / r.width == n.x;
    assert (p.y - r.y) / r.height == n.y;
  }

  lemma PlaceAxis(v: real, start: real, extent: real)
    requires extent > 0.0
    ensures (start + v * extent - start) / extent == v
  {
    DivMul(v, extent);
    assert start + v * extent - start == v * extent;
  }

  /** Within one axis: inside the content, or out of it by at most a thousandth of its extent. */
  predicate Near(v: real, start: real, extent: real) { start - EPS * extent <= v <= start + extent + EPS * extent }

  lemma NearExactly(v: real, start: real, extent: real)
    requires extent > 0.0
    ensures NearUnit((v - start) / extent) <==> Near(v, start, extent)
  {
    var q, d := (v - start) / extent, v - start;
    DivMul(d, extent);
    Ordered(-0.001, q, extent, -(0.001 * extent), d);
    Ordered(q, 1.001, extent, d, 1.001 * extent);
  }

  /** Multiplying by a positive number keeps the order. */
  lemma Ordered(a: real, b: real, c: real, ac: real, bc: real)
    requires c > 0.0 && ac == a * c && bc == b * c
    ensures a <= b <==> ac <= bc
  {
    MulMono(a, b, c);
  }

  /** A touch counts exactly when it is on the content or within the tolerance of its edge, and then lands in the unit square. */
  lemma AcceptedExactly(p: Vec, element: Size, video: Size)
    ensures NormalizePoint(p, element, video).Some? <==>
      Positive(element) && Positive(video) && (var r := ContentRect(element, video).value; Near(p.x, r.x, r.width) && Near(p.y, r.y, r.height))
    ensures NormalizePoint(p, element, video).Some? ==> Unit(NormalizePoint(p, element, video).value)
  {
    hide ContentRect, Near;
    ContentRectFits(element, video);
    if Positive(element) && Positive(video) {
      var r := ContentRect(element, video).value;
      NearExactly(p.x, r.x, r.width);
      NearExactly(p.y, r.y, r.height);
    }
  }

  /** Clamping moves a point the page can show by at most a hundredth of a pixel, and never out of the page. */
  lemma ClampCssError(css: real, max: real)
    requires 0.0 <= css <= max
    ensures 0.0 <= css - ClampCss(css, max) <= 0.01
    ensures 0.0 <= ClampCss(css, max) && (max > 0.0 ==> ClampCss(css, max) < max)
  {
  }

  /** The place within the content nearest to an offset from its edge. */
  function Inset(d: real, extent: real): real { if d < 0.0 then 0.0 else if d > extent then extent else d }

  lemma InsetIsClamped(d: real, extent: real)
    requires extent > 0.0
    ensures Clamp01(d / extent) == Inset(d, extent) / extent
  {
    DivMul(d, extent);
    Ordered(0.0, d / extent, extent, 0.0, d);
    Ordered(d / extent, 1.0, extent, d, extent);
    DivMul(0.0, extent);
    DivMul(1.0, extent);
  }

  /** Where on the page the finger points: as far along the page as it is along the video content. */
  function Aimed(p: Vec, r: Rect, page: Size): Vec
    requires r.width > 0.0 && r.height > 0.0
  {
    Vec(Inset(p.x - r.x, r.width) / r.width * page.width, Inset(p.y - r.y, r.height) / r.height * page.height)
  }

  /** From a touch on the phone to the page: the target is inside the page and a hundredth of a pixel off at most from where the finger points. */
  lemma TouchLandsOnThePage(p: Vec, element: Size, video: Size, page: Size)
    requires Positive(page) && NormalizePoint(p, element, video).Some?
    ensures Positive(element) && Positive(video) && ContentRect(element, video).value.width > 0.0 && ContentRect(element, video).value.height > 0.0
    ensures var css, aimed := Denormalize(NormalizePoint(p, element, video).value, page), Aimed(p, ContentRect(element, video).value, page);
      var hit := Vec(ClampCss(css.x, page.width), ClampCss(css.y, page.height));
      && 0.0 <= hit.x < page.width && 0.0 <= hit.y < page.height
      && 0.0 <= aimed.x - hit.x <= 0.01 && 0.0 <= aimed.y - hit.y <= 0.01
  {
    hide ContentRect, NormalizePoint, ClampCss, Inset, Near, Clamp01;
    ContentRectFits(element, video);
    AcceptedExactly(p, element, video);
    var r := ContentRect(element, video).value;
    NormalizedIs(p, element, video);
    InsetIsClamped(p.x - r.x, r.width);
    InsetIsClamped(p.y - r.y, r.height);
    UnitLandsOnThePage(NormalizePoint(p, element, video).value, page);
  }

  lemma NormalizedIs(p: Vec, element: Size, video: Size)
    requires NormalizePoint(p, element, video).Some?
    ensures ContentRect(element, video).Some? && ContentRect(element, video).value.width != 0.0 && ContentRect(element, video).value.height != 0.0
    ensures var r := ContentRect(element, video).value;
      NormalizePoint(p, element, video).value == Vec(Clamp01((p.x - r.x) / r.width), Clamp01((p.y - r.y) / r.height))
  {
    hide ContentRect;
  }

  lemma UnitLandsOnThePage(n: Vec, page: Size)
    requires Positive(page) && Unit(n)
    ensures var css := Denormalize(n, page);
      var hit := Vec(ClampCss(css.x, page.width), ClampCss(css.y, page.height));
      && 0.0 <= hit.x < page.width && 0.0 <= hit.y < page.height
      && 0.0 <= css.x - hit.x <= 0.01 && 0.0 <= css.y - hit.y <= 0.01
  {
    UnitAxis(n.x, page.width);
    UnitAxis(n.y, page.height);
  }

  lemma UnitAxis(v: real, extent: real)
    requires 0.0 <= v <= 1.0 && extent > 0.0
    ensures var css := v * extent; var hit := ClampCss(css, extent); 0.0 <= hit < extent && 0.0 <= css - hit <= 0.01
  {
    var css := v * extent;
    Ordered(0.0, v, extent, 0.0, css);
    Ordered(v, 1.0, extent, css, extent);
    ClampCssError(css, extent);
  }
}
