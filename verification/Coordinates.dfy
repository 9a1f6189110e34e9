/** Mapping between desktop points and the pixels of a capture, in 64-bit arithmetic. */
module Coordinates {
  import opened Basics

  const MAX_INT := 0x7fff_ffff_ffff_ffff
  const TWO_64 := 0x1_0000_0000_0000_0000

  /** Go's int and uint64 on a 64-bit platform. */
  type int64 = x: int | -MAX_INT - 1 <= x <= MAX_INT
  type uint64 = x: int | 0 <= x < TWO_64

  /** The conversion of an int, and the difference of two, as uint64. */
  function Unsigned(x: int64): uint64 { if x < 0 then x + TWO_64 else x }

  function Minus(a: uint64, b: uint64): uint64 { if a >= b then a - b else a - b + TWO_64 }

  /** Two's-complement wrap-around of a sum or difference. */
  function Wrap(x: int): int64 { (x + MAX_INT + 1) % TWO_64 - MAX_INT - 1 }

  /** The 128-bit product in two words. */
  function Mul64(a: uint64, b: uint64): (r: (uint64, uint64))
    ensures r.0 * TWO_64 + r.1 == a * b
  {
    ProductInRange(a, b);
    (a * b / TWO_64, a * b % TWO_64)
  }

  lemma ProductInRange(a: uint64, b: uint64)
    ensures 0 <= a * b / TWO_64 < TWO_64
  {
    Multiply(0, a, b);
    Multiply(a, TWO_64 - 1, b);
    Multiply(b, TWO_64 - 1, TWO_64 - 1);
    QuotientBelow(a * b, TWO_64, TWO_64);
  }

  lemma QuotientBelow(n: nat, d: nat, q: nat)
    requires d > 0 && n < q * d
    ensures 0 <= n / d < q
  {
    if n / d >= q { Multiply(q, n / d, d); }
  }

  /** 128-by-64 division; the hardware refuses a quotient that needs more than 64 bits. */
  function Div64(hi: uint64, lo: uint64, y: uint64): (q: uint64)
    requires hi < y
    ensures q * y <= hi * TWO_64 + lo < (q + 1) * y
  {
    var n := hi * TWO_64 + lo;
    Multiply(hi, y - 1, TWO_64);
    QuotientBelow(n, y, TWO_64);
    DivisionBounds(n, y);
    n / y
  }

  lemma DivisionBounds(n: nat, d: nat)
    requires d > 0
    ensures n / d * d <= n < (n / d + 1) * d
  {
    assert n == n / d * d + n % d;
  }

  datatype Point = Point(x: int64, y: int64)

  datatype Rect = Rect(minX: int64, minY: int64, maxX: int64, maxY: int64) {
    predicate Contains(p: Point) { minX <= p.x < maxX && minY <= p.y < maxY }
    predicate Covers(r: Rect) { minX <= r.minX && minY <= r.minY && r.maxX <= maxX && r.maxY <= maxY }
  }

  /** `captureAxisSpan`: the length of a side, unless it is empty or not an int. */
  function AxisSpan(min: int64, max: int64): (span: Option<uint64>)
    ensures span.Some? <==> min < max && max - min <= MAX_INT
    ensures span.Some? ==> span.value == max - min
  {
    if max <= min then None
    else
      var span := Minus(Unsigned(max), Unsigned(min));
      if span <= MAX_INT then Some(span) else None
  }

  /** `scaleCaptureOffset`; an offset within the source span keeps the division legal. */
  function ScaleOffset(offset: uint64, source: uint64, destination: uint64): (q: uint64)
    requires offset < source
    ensures q * source <= offset * destination < (q + 1) * source
    ensures destination > 0 ==> q < destination
  {
    Multiply(offset, source - 1, destination);
    var (hi, lo) := Mul64(offset, destination);
    HighBelow(hi, lo, offset, source, destination);
    var q := Div64(hi, lo, source);
    if destination > 0 then
      ScaledBelow(q, offset, source, destination);
      q
    else q
  }

  lemma HighBelow(hi: uint64, lo: uint64, offset: uint64, source: uint64, destination: uint64)
    requires hi * TWO_64 + lo == offset * destination && offset < source
    ensures hi < source
  {
    Multiply(offset, source - 1, destination);
    Multiply(destination, TWO_64 - 1, source - 1);
    if hi >= source { Multiply(source, hi, TWO_64); }
  }

  lemma ScaledBelow(q: uint64, offset: uint64, source: uint64, destination: uint64)
    requires offset < source && q * source <= offset * destination && destination > 0
    ensures q < destination
  {
    Multiply(offset, source - 1, destination);
    if q >= destination { Multiply(destination, q, source); }
  }

  /** Larger offsets are not mapped lower. */
  lemma ScaleMonotone(a: uint64, b: uint64, source: uint64, destination: uint64)
    requires a <= b < source
    ensures ScaleOffset(a, source, destination) <= ScaleOffset(b, source, destination)
  {
    var p, q := ScaleOffset(a, source, destination), ScaleOffset(b, source, destination);
    Multiply(a, b, destination);
    if p > q { Multiply(q + 1, p, source); }
  }

  lemma AtMostOneShort(o: nat, coarse: nat, fine: nat, there: nat, back: nat)
    requires 0 < coarse <= fine
    requires there * coarse <= o * fine < (there + 1) * coarse && back * fine <= there * coarse < (back + 1) * fine
    ensures o - 1 <= back <= o
  {
    assert (back + 2) * fine == (back + 1) * fine + fine;
    assert (there + 1) * coarse == there * coarse + coarse;
    if back > o { Multiply(o + 1, back, fine); }
    if back < o - 1 { Multiply(back + 2, o, fine); }
  }

  lemma ExactWhenUnrounded(o: nat, coarse: nat, fine: nat, there: nat, back: nat)
    requires 0 < coarse <= fine
    requires there * coarse <= o * fine < (there + 1) * coarse && back * fine <= there * coarse < (back + 1) * fine
    ensures back == o <==> there * coarse == o * fine
  {
    if there * coarse == o * fine {
      if back < o { Multiply(back + 1, o, fine); }
      if back > o { Multiply(o + 1, back, fine); }
    }
  }

  lemma UnroundedWhenDivisible(n: nat, d: nat, q: nat)
    requires d > 0 && q * d <= n < (q + 1) * d
    ensures q * d == n <==> n % d == 0
  {
    DivisionBounds(n, d);
    var r := n / d;
    if r < q { Multiply(r + 1, q, d); }
    if r > q { Multiply(q + 1, r, d); }
    assert n == r * d + n % d;
  }

  /** Out to the finer grid and back: never beyond, at most one short, and exact exactly when
      the finer position was not rounded. */
  lemma ThereAndBack(offset: uint64, coarse: uint64, fine: uint64)
    requires offset < coarse <= fine
    ensures var there := ScaleOffset(offset, coarse, fine);
      there < fine && offset - 1 <= ScaleOffset(there, fine, coarse) <= offset
      && (ScaleOffset(there, fine, coarse) == offset <==> (offset * fine) % coarse == 0)
  {
    hide Mul64, Div64;
    var there := ScaleOffset(offset, coarse, fine);
    var back := ScaleOffset(there, fine, coarse);
    AtMostOneShort(offset, coarse, fine, there, back);
    ExactWhenUnrounded(offset, coarse, fine, there, back);
    UnroundedWhenDivisible(offset * fine, coarse, there);
  }

  lemma MultipleOfMultiple(o: nat, fine: nat, coarse: nat)
    requires coarse > 0 && fine % coarse == 0
    ensures (o * fine) % coarse == 0
  {
    var k := fine / coarse;
    assert fine == k * coarse;
    assert o * fine == (o * k) * coarse;
    assert (o * k) * coarse < (o * k + 1) * coarse;
    Multiply(0, o, k);
    UnroundedWhenDivisible(o * fine, coarse, o * k);
  }

  /** The round trip is exact for every offset exactly when the fine span is a multiple. */
  lemma ExactForAllMultiples(coarse: uint64, fine: uint64)
    requires 0 < coarse <= fine
    ensures (forall o: uint64 :: o < coarse ==> ScaleOffset(ScaleOffset(o, coarse, fine), fine, coarse) == o) <==> fine % coarse == 0
  {
    hide ScaleOffset;
    if fine % coarse == 0 {
      forall o: uint64 | o < coarse ensures ScaleOffset(ScaleOffset(o, coarse, fine), fine, coarse) == o {
        ThereAndBack(o, coarse, fine);
        MultipleOfMultiple(o, fine, coarse);
      }
    } else if coarse > 1 {
      ThereAndBack(1, coarse, fine);
      assert 1 * fine == fine;
    }
  }

  // ---------------------------------------------------------------- whole points

  datatype MapError = EmptyBounds | OutsideBounds | NotUniform | TooSmall

  datatype Result<T> = Ok(value: T) | Err(error: MapError)

  /** Both sides have spans, the image is at least as fine as the region, by one scale. */
  predicate Uniform(image: Rect, region: Rect) {
    var iw, ih := AxisSpan(image.minX, image.maxX), AxisSpan(image.minY, image.maxY);
    var rw, rh := AxisSpan(region.minX, region.maxX), AxisSpan(region.minY, region.maxY);
    && iw.Some? && ih.Some? && rw.Some? && rh.Some?
    && iw.value * rh.value == ih.value * rw.value && iw.value >= rw.value && ih.value >= rh.value
  }

  /** The checks that `ScreenPoint` and `translatePointsToImage` share, as they make them. */
  function SpanError(image: Rect, region: Rect): (e: Option<MapError>)
    ensures e.None? <==> Uniform(image, region)
    ensures e == Some(EmptyBounds) || e == Some(NotUniform) || e == Some(TooSmall) || e == None
  {
    var iw, ih := AxisSpan(image.minX, image.maxX), AxisSpan(image.minY, image.maxY);
    var rw, rh := AxisSpan(region.minX, region.maxX), AxisSpan(region.minY, region.maxY);
    if iw.None? || ih.None? || rw.None? || rh.None? then Some(EmptyBounds)
    else if Mul64(iw.value, rh.value) != Mul64(ih.value, rw.value) then Some(NotUniform)
    else if iw.value < rw.value || ih.value < rh.value then Some(TooSmall)
    else None
  }

  lemma OffsetIsExact(a: int64, min: int64)
    requires min <= a <= min + MAX_INT
    ensures Minus(Unsigned(a), Unsigned(min)) == a - min == Unsigned(Wrap(a - min))
  {}

  lemma InRange(x: int64)
    ensures Wrap(x) == x
  {}

  /** One axis of `ScreenPoint`, on unsigned offsets: nothing wraps around. */
  function ToScreen(x: int64, min: int64, max: int64, toMin: int64, toMax: int64): (r: int64)
    requires min <= x < max && max - min <= MAX_INT && toMin < toMax && toMax - toMin <= MAX_INT
    ensures r == toMin + ScaleOffset(x - min, max - min, toMax - toMin) && toMin <= r < toMax
  {
    OffsetIsExact(x, min);
    var r := toMin + ScaleOffset(Minus(Unsigned(x), Unsigned(min)), max - min, toMax - toMin);
    InRange(r);
    Wrap(r)
  }

  /** One axis of `translatePointsToImage`, on a signed difference: nothing wraps around. */
  function ToImage(x: int64, min: int64, max: int64, toMin: int64, toMax: int64): (r: int64)
    requires min <= x < max && max - min <= MAX_INT && toMin < toMax && toMax - toMin <= MAX_INT
    ensures r == toMin + ScaleOffset(x - min, max - min, toMax - toMin) && toMin <= r < toMax
  {
    OffsetIsExact(x, min);
    var r := toMin + ScaleOffset(Unsigned(Wrap(x - min)), max - min, toMax - toMin);
    InRange(r);
    Wrap(r)
  }

  /** `Capture.ScreenPoint`: the desktop point of an image pixel. */
  function ScreenPoint(image: Rect, screen: Rect, pixel: Point): (r: Result<Point>)
    ensures r.Ok? <==> Uniform(image, screen) && image.Contains(pixel)
    ensures r.Ok? ==> screen.Contains(r.value)
  {
    var iw, ih := AxisSpan(image.minX, image.maxX), AxisSpan(image.minY, image.maxY);
    var sw, sh := AxisSpan(screen.minX, screen.maxX), AxisSpan(screen.minY, screen.maxY);
    if iw.None? || ih.None? || sw.None? || sh.None? then Err(EmptyBounds)
    else if !image.Contains(pixel) then Err(OutsideBounds)
    else if SpanError(image, screen).Some? then Err(SpanError(image, screen).value)
    else Ok(Point(ToScreen(pixel.x, image.minX, image.maxX, screen.minX, screen.maxX),
                  ToScreen(pixel.y, image.minY, image.maxY, screen.minY, screen.maxY)))
  }

  /** One point of `translatePointsToImage`. */
  function ImagePoint(image: Rect, region: Rect, p: Point): (q: Point)
    requires Uniform(image, region) && region.Contains(p)
    ensures image.Contains(q)
  {
    Point(ToImage(p.x, region.minX, region.maxX, image.minX, image.maxX),
          ToImage(p.y, region.minY, region.maxY, image.minY, image.maxY))
  }

  /** Both directions keep the order along each axis. */
  lemma MappingMonotone(image: Rect, region: Rect, p: Point, q: Point, a: Point, b: Point)
    requires Uniform(image, region) && region.Contains(p) && region.Contains(q) && p.x <= q.x && p.y <= q.y
    requires image.Contains(a) && image.Contains(b) && a.x <= b.x && a.y <= b.y
    ensures ImagePoint(image, region, p).x <= ImagePoint(image, region, q).x && ImagePoint(image, region, p).y <= ImagePoint(image, region, q).y
    ensures ScreenPoint(image, region, a).value.x <= ScreenPoint(image, region, b).value.x
    ensures ScreenPoint(image, region, a).value.y <= ScreenPoint(image, region, b).value.y
  {
    hide ScaleOffset, ToScreen, ToImage, SpanError;
    ScaleMonotone(p.x - region.minX, q.x - region.minX, region.maxX - region.minX, image.maxX - image.minX);
    ScaleMonotone(p.y - region.minY, q.y - region.minY, region.maxY - region.minY, image.maxY - image.minY);
    ScaleMonotone(a.x - image.minX, b.x - image.minX, image.maxX - image.minX, region.maxX - region.minX);
    ScaleMonotone(a.y - image.minY, b.y - image.minY, image.maxY - image.minY, region.maxY - region.minY);
  }

  /** From the desktop to a pixel and back: never beyond the point, at most one short on each
      axis, exact where the pixel was not rounded. */
  lemma PixelAndBack(image: Rect, region: Rect, p: Point)
    requires Uniform(image, region) && region.Contains(p)
    ensures var back := ScreenPoint(image, region, ImagePoint(image, region, p));
      && back.Ok? && p.x - 1 <= back.value.x <= p.x && p.y - 1 <= back.value.y <= p.y
      && (back.value.x == p.x <==> ((p.x - region.minX) * (image.maxX - image.minX)) % (region.maxX - region.minX) == 0)
      && (back.value.y == p.y <==> ((p.y - region.minY) * (image.maxY - image.minY)) % (region.maxY - region.minY) == 0)
  {
    hide ScaleOffset, ToScreen, ToImage, SpanError;
    ThereAndBack(p.x - region.minX, region.maxX - region.minX, image.maxX - image.minX);
    ThereAndBack(p.y - region.minY, region.maxY - region.minY, image.maxY - image.minY);
  }

  /** `translatePointsToImage`. */
  method TranslatePoints(points: seq<Point>, region: Rect, image: Rect) returns (r: Result<seq<Point>>)
    ensures r.Ok? <==> Uniform(image, region) && forall p :: p in points ==> region.Contains(p)
    ensures r.Ok? ==> |r.value| == |points| && forall i :: 0 <= i < |points| ==>
      region.Contains(points[i]) && r.value[i] == ImagePoint(image, region, points[i])
    ensures r == Err(OutsideBounds) <==> Uniform(image, region) && exists p :: p in points && !region.Contains(p)
  {
    hide ImagePoint;
    var e := SpanError(image, region);
    if e.Some? { return Err(e.value); }
    var out: seq<Point> := [];
    for i := 0 to |points|
      invariant |out| == i && forall j :: 0 <= j < i ==> region.Contains(points[j]) && out[j] == ImagePoint(image, region, points[j])
    {
      if !region.Contains(points[i]) { return Err(OutsideBounds); }
      out := out + [ImagePoint(image, region, points[i])];
    }
    return Ok(out);
  }

  predicate Extreme(p: Point) { p.x == MAX_INT || p.y == MAX_INT }

  function Min(a: int64, b: int64): int64 { if a < b then a else b }

  function Max(a: int64, b: int64): int64 { if a > b then a else b }

  /** `pointsBounds`: the least rectangle that contains every point; refused exactly when a
      coordinate leaves no room for an exclusive maximum. */
  method PointsBounds(points: seq<Point>) returns (r: Option<Rect>)
    requires points != []
    ensures r.None? <==> exists p :: p in points && Extreme(p)
    ensures r.Some? ==> forall p :: p in points ==> r.value.Contains(p)
    ensures r.Some? ==> forall other: Rect :: (forall p :: p in points ==> other.Contains(p)) ==> other.Covers(r.value)
  {
    for i := 0 to |points|
      invariant forall p :: p in points[..i] ==> !Extreme(p)
    {
      if Extreme(points[i]) { return None; }
    }
    assert points[..|points|] == points;
    var box := Rect(points[0].x, points[0].y, points[0].x, points[0].y);
    ghost var left, top, right, bottom := points[0], points[0], points[0], points[0];
    for i := 1 to |points|
      invariant forall p :: p in points[..i] ==> box.minX <= p.x <= box.maxX && box.minY <= p.y <= box.maxY
      invariant left in points && top in points && right in points && bottom in points
      invariant left.x == box.minX && top.y == box.minY && right.x == box.maxX && bottom.y == box.maxY
    {
      var p := points[i];
      assert points[..i + 1] == points[..i] + [p];
      if p.x < box.minX { left := p; }
      if p.y < box.minY { top := p; }
      if p.x > box.maxX { right := p; }
      if p.y > box.maxY { bottom := p; }
      box := Rect(Min(box.minX, p.x), Min(box.minY, p.y), Max(box.maxX, p.x), Max(box.maxY, p.y));
    }
    return Some(Rect(box.minX, box.minY, box.maxX + 1, box.maxY + 1));
  }
}
