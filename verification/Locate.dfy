/** Exact location of a reference image in a captured one, both packed RGBA. */
module Locate {
  import opened Basics

  const MAX_INT := 0x7fff_ffff_ffff_ffff
  const FALLBACK_CANDIDATES := 8
  const WINDOW_BYTES := 16

  datatype Rect = Rect(minX: int, minY: int, maxX: int, maxY: int) {
    predicate Empty() { minX >= maxX || minY >= maxY }
    function Dx(): int { maxX - minX }
    function Dy(): int { maxY - minY }
  }

  /** `translateRect`. */
  function Translate(r: Rect, fromX: int, fromY: int, toX: int, toY: int): Rect {
    Rect(r.minX + toX - fromX, r.minY + toY - fromY, r.maxX + toX - fromX, r.maxY + toY - fromY)
  }

  datatype Image = Image(rect: Rect, stride: int, pix: seq<byte>)

  datatype LocateError = EmptyArea | EmptyReference | MalformedLayout | LargerThanArea | NotFound

  datatype Result = Ok(rect: Rect) | Err(error: LocateError)

  // ------------------------------------------------------------------- layout

  /** `packedRowBytes`. */
  function PackedRowBytes(width: int): Option<nat> {
    if width <= 0 || width > MAX_INT / 4 then None else Some(width * 4)
  }

  /** `packedBufferSize`. */
  function PackedBufferSize(bounds: Rect, stride: int): Option<int> {
    if bounds.Empty() || stride < 0 then None
    else
      var rowBytes := PackedRowBytes(bounds.Dx());
      if rowBytes.None? || stride < rowBytes.value then None
      else if bounds.Dy() - 1 > (MAX_INT - rowBytes.value) / stride then None
      else Some((bounds.Dy() - 1) * stride + rowBytes.value)
  }

  /** The size is refused exactly when the bounds have no pixels, a row does not fit its
      stride, or the size itself cannot be represented; no intermediate value overflows. */
  lemma BufferSizeIsExact(bounds: Rect, stride: int)
    ensures PackedBufferSize(bounds, stride).Some? <==>
      !bounds.Empty() && bounds.Dx() * 4 <= stride && (bounds.Dy() - 1) * stride + bounds.Dx() * 4 <= MAX_INT
    ensures PackedBufferSize(bounds, stride).Some? ==>
      0 <= (bounds.Dy() - 1) * stride <= PackedBufferSize(bounds, stride).value - bounds.Dx() * 4 <= MAX_INT - bounds.Dx() * 4
  {
    if !bounds.Empty() && bounds.Dx() * 4 <= stride {
      NoOverflow(bounds.Dy() - 1, stride, MAX_INT - bounds.Dx() * 4);
    }
  }

  lemma NoOverflow(rows: nat, stride: int, room: int)
    requires stride > 0
    ensures rows * stride >= 0
    ensures room >= 0 ==> (rows > room / stride <==> rows * stride > room)
  {
    Multiply(0, rows, stride);
    if room >= 0 {
      var q := room / stride;
      assert room == q * stride + room % stride;
      assert (q + 1) * stride == q * stride + stride;
      if rows > q { Multiply(q + 1, rows, stride); } else { Multiply(rows, q, stride); }
    }
  }

  /** `validPackedImageLayout` of an RGBA image. */
  predicate Packed(img: Image) {
    PackedBufferSize(img.rect, img.stride).Some? && |img.pix| >= PackedBufferSize(img.rect, img.stride).value
  }

  function Width(img: Image): nat requires Packed(img) { img.rect.Dx() }

  function Height(img: Image): nat requires Packed(img) { img.rect.Dy() }

  lemma RowInside(img: Image, r: nat)
    requires Packed(img) && r < Height(img)
    ensures 0 <= r * img.stride <= |img.pix| - Width(img) * 4
  {
    BufferSizeIsExact(img.rect, img.stride);
    assert r * img.stride <= (img.rect.Dy() - 1) * img.stride;
  }

  /** The bytes of one row. */
  function Row(img: Image, r: nat): (row: seq<byte>)
    requires Packed(img) && r < Height(img)
    ensures |row| == Width(img) * 4
  {
    RowInside(img, r);
    img.pix[r * img.stride..r * img.stride + Width(img) * 4]
  }

  lemma SliceOfSlice(row: seq<byte>, from: nat, n: nat, start: nat, length: nat)
    requires from + n <= |row| && start + length <= n
    ensures row[from..from + n][start..start + length] == row[from + start..from + start + length]
  {
    var a, b := row[from..from + n][start..start + length], row[from + start..from + start + length];
    assert |a| == |b| && forall i :: 0 <= i < |a| ==> a[i] == row[from + start + i] == b[i];
  }

  /** Bytes addressed through offset and stride are bytes of the row. */
  lemma RowSlice(img: Image, r: nat, from: nat, length: nat)
    requires Packed(img) && r < Height(img) && from + length <= Width(img) * 4
    ensures 0 <= r * img.stride + from && r * img.stride + from + length <= |img.pix|
    ensures img.pix[r * img.stride + from..r * img.stride + from + length] == Row(img, r)[from..from + length]
  {
    RowInside(img, r);
    SliceOfSlice(img.pix, r * img.stride, Width(img) * 4, from, length);
  }

  // ---------------------------------------------------------------- raster scan

  predicate Comparable(src: Image, ref: Image) {
    Packed(src) && Packed(ref) && Width(ref) <= Width(src) && Height(ref) <= Height(src)
  }

  predicate Within(src: Image, ref: Image, x: int, y: int)
    requires Comparable(src, ref)
  {
    0 <= x <= Width(src) - Width(ref) && 0 <= y <= Height(src) - Height(ref)
  }

  /** Pixel by pixel and channel by channel, the reference at (x, y) of the source. */
  predicate Matches(src: Image, ref: Image, x: int, y: int)
    requires Comparable(src, ref) && Within(src, ref, x, y)
  {
    forall dy, dx, c :: 0 <= dy < Height(ref) && 0 <= dx < Width(ref) && 0 <= c < 4 ==> Same(src, ref, x, y, dy, dx, c)
  }

  predicate Same(src: Image, ref: Image, x: int, y: int, dy: int, dx: int, c: int)
    requires Comparable(src, ref) && Within(src, ref, x, y)
    requires 0 <= dy < Height(ref) && 0 <= dx < Width(ref) && 0 <= c < 4
  {
    Row(src, y + dy)[(x + dx) * 4 + c] == Row(ref, dy)[dx * 4 + c]
  }

  predicate Before(x: int, y: int, x': int, y': int) { y < y' || (y == y' && x < x') }

  /** The match that an all-positions scan in raster order meets first. */
  ghost predicate First(src: Image, ref: Image, x: int, y: int)
    requires Comparable(src, ref)
  {
    && Within(src, ref, x, y) && Matches(src, ref, x, y)
    && forall x', y' :: Within(src, ref, x', y') && Before(x', y', x, y) ==> !Matches(src, ref, x', y')
  }

  lemma FirstIsUnique(src: Image, ref: Image, x: int, y: int, x': int, y': int)
    requires Comparable(src, ref) && First(src, ref, x, y) && First(src, ref, x', y')
    ensures x == x' && y == y'
  {
    if Before(x, y, x', y') || Before(x', y', x, y) { assert false; }
  }

  /** Row by row: the reference's rows are slices of the source's rows. */
  predicate RowsMatch(src: Image, ref: Image, x: int, y: int)
    requires Comparable(src, ref) && Within(src, ref, x, y)
  {
    forall dy :: 0 <= dy < Height(ref) ==> RowMatches(src, ref, x, y, dy)
  }

  predicate RowMatches(src: Image, ref: Image, x: int, y: int, dy: int)
    requires Comparable(src, ref) && Within(src, ref, x, y) && 0 <= dy < Height(ref)
  {
    Row(src, y + dy)[x * 4..x * 4 + Width(ref) * 4] == Row(ref, dy)
  }

  /** One row compared through offset and stride. */
  lemma RowCompared(src: Image, ref: Image, x: int, y: int, dy: int, w: nat, srcOff: int, refOff: int)
    requires Comparable(src, ref) && Within(src, ref, x, y) && 0 <= dy < Height(ref) && w == Width(ref) * 4
    requires srcOff == (y + dy) * src.stride + x * 4 && refOff == dy * ref.stride
    ensures 0 <= srcOff <= srcOff + w <= |src.pix| && 0 <= refOff <= refOff + w <= |ref.pix|
    ensures src.pix[srcOff..srcOff + w] == ref.pix[refOff..refOff + w] <==> RowMatches(src, ref, x, y, dy)
  {
    hide Packed;
    RowSlice(src, y + dy, x * 4, w);
    RowSlice(ref, dy, 0, w);
    hide Row;
    assert Row(ref, dy)[0..w] == Row(ref, dy);
  }

  lemma RowsArePixels(src: Image, ref: Image, x: int, y: int)
    requires Comparable(src, ref) && Within(src, ref, x, y)
    ensures RowsMatch(src, ref, x, y) <==> Matches(src, ref, x, y)
  {
    hide Row, Packed;
    if Matches(src, ref, x, y) {
      forall dy | 0 <= dy < Height(ref) ensures RowMatches(src, ref, x, y, dy) {
        forall b | 0 <= b < Width(ref) * 4 ensures Row(src, y + dy)[x * 4 + b] == Row(ref, dy)[b] {
          assert Same(src, ref, x, y, dy, b / 4, b % 4);
          assert (x + b / 4) * 4 + b % 4 == x * 4 + b;
        }
      }
    }
    if RowsMatch(src, ref, x, y) {
      forall dy, dx, c | 0 <= dy < Height(ref) && 0 <= dx < Width(ref) && 0 <= c < 4 ensures Same(src, ref, x, y, dy, dx, c) {
        assert RowMatches(src, ref, x, y, dy);
        var slice := Row(src, y + dy)[x * 4..x * 4 + Width(ref) * 4];
        assert slice[dx * 4 + c] == Row(src, y + dy)[(x + dx) * 4 + c];
      }
    }
  }

  /** `matchAt` for RGBA images. */
  method MatchAt(src: Image, ref: Image, x: int, y: int) returns (same: bool)
    requires Comparable(src, ref) && Within(src, ref, x, y)
    ensures same <==> Matches(src, ref, x, y)
  {
    RowsArePixels(src, ref, x, y);
    hide RowMatches, Packed, Matches;
    var w := Width(ref) * 4;
    for dy := 0 to Height(ref)
      invariant forall r :: 0 <= r < dy ==> RowMatches(src, ref, x, y, r)
    {
      var srcOff, refOff := (y + dy) * src.stride + x * 4, dy * ref.stride + 0;
      RowCompared(src, ref, x, y, dy, w, srcOff, refOff);
      if src.pix[srcOff..srcOff + w] != ref.pix[refOff..refOff + w] { return false; }
    }
    return true;
  }

  // -------------------------------------------------------------------- anchors

  /** The byte string occurs in the row at this offset. */
  predicate Occurs(row: seq<byte>, part: seq<byte>, at: int) {
    0 <= at <= |row| - |part| && row[at..at + |part|] == part
  }

  /** `bytes.Index` from an offset on. */
  method Index(row: seq<byte>, part: seq<byte>, from: nat) returns (at: int)
    requires from <= |row|
    ensures at < 0 ==> forall i :: from <= i ==> !Occurs(row, part, i)
    ensures at >= 0 ==> from <= at && Occurs(row, part, at) && forall i :: from <= i < at ==> !Occurs(row, part, i)
  {
    at := from;
    while at <= |row| - |part|
      invariant from <= at && forall i :: from <= i < at ==> !Occurs(row, part, i)
    {
      if row[at..at + |part|] == part { return at; }
      at := at + 1;
    }
    return -1;
  }

  datatype Anchor = Anchor(row: int, start: int, length: int)

  const FIRST_PIXEL := Anchor(0, 0, 4)

  /** The anchor lies in the reference. */
  predicate Inside(ref: Image, a: Anchor)
    requires Packed(ref)
  {
    0 <= a.row < Height(ref) && 0 <= a.start && 0 < a.length <= Width(ref) * 4 - a.start
  }

  /** Every match shows the anchor's bytes in the source, whatever anchor is chosen. */
  lemma MatchShowsAnchor(src: Image, ref: Image, x: int, y: int, a: Anchor)
    requires Comparable(src, ref) && Within(src, ref, x, y) && Inside(ref, a) && Matches(src, ref, x, y)
    ensures Occurs(Row(src, y + a.row), Row(ref, a.row)[a.start..a.start + a.length], x * 4 + a.start)
  {
    hide Row, Packed, Matches, Same;
    RowsArePixels(src, ref, x, y);
    var row := Row(src, y + a.row);
    assert RowMatches(src, ref, x, y, a.row);
    assert row[x * 4..x * 4 + Width(ref) * 4] == Row(ref, a.row);
    SliceOfSlice(row, x * 4, Width(ref) * 4, a.start, a.length);
  }

  /** The number of pixels in a row that differ from their left neighbour. */
  function Detail(row: seq<byte>, pixels: nat): nat
    requires pixels * 4 <= |row|
  {
    if pixels <= 1 then 0
    else Detail(row, pixels - 1)
         + if row[pixels * 4 - 4..pixels * 4] != row[pixels * 4 - 8..pixels * 4 - 4] then 1 else 0
  }

  lemma DetailStarts(row: seq<byte>)
    ensures Detail(row, 0) == 0 && (|row| >= 4 ==> Detail(row, 1) == 0)
  {}

  lemma DetailStep(row: seq<byte>, pixels: nat, offset: nat)
    requires offset == pixels * 4 && 1 <= pixels && offset + 4 <= |row|
    ensures Detail(row, pixels + 1) ==
      Detail(row, pixels) + if row[offset..offset + 4] != row[offset - 4..offset] then 1 else 0
  {}

  method MeasureDetail(row: seq<byte>) returns (score: nat)
    requires |row| % 4 == 0
    ensures score == Detail(row, |row| / 4)
  {
    hide Detail;
    DetailStarts(row);
    score := 0;
    var offset := 4;
    ghost var pixels: nat := 1;
    while offset < |row|
      invariant offset == pixels * 4 && 1 <= pixels && (offset <= |row| || |row| == 0)
      invariant |row| > 0 ==> score == Detail(row, pixels)
      invariant |row| == 0 ==> score == 0
    {
      PixelsDiffer(row, offset);
      DetailStep(row, pixels, offset);
      if row[offset] != row[offset - 4] || row[offset + 1] != row[offset - 3] || row[offset + 2] != row[offset - 2]
         || row[offset + 3] != row[offset - 1] {
        score := score + 1;
      }
      offset, pixels := offset + 4, pixels + 1;
    }
  }

  lemma PixelsDiffer(row: seq<byte>, offset: nat)
    requires 4 <= offset <= |row| - 4
    ensures row[offset..offset + 4] == row[offset - 4..offset] <==>
      row[offset] == row[offset - 4] && row[offset + 1] == row[offset - 3] && row[offset + 2] == row[offset - 2]
      && row[offset + 3] == row[offset - 1]
  {
    var a, b := row[offset..offset + 4], row[offset - 4..offset];
    assert a == [row[offset], row[offset + 1], row[offset + 2], row[offset + 3]];
    assert b == [row[offset - 4], row[offset - 3], row[offset - 2], row[offset - 1]];
  }

  function Abs(n: int): nat { if n < 0 then -n else n }

  /** Changes between neighbouring bytes of a window. */
  function Changes(window: seq<byte>): nat {
    if |window| < 2 then 0
    else Changes(window[..|window| - 1]) + if window[|window| - 1] != window[|window| - 2] then 1 else 0
  }

  /** Contrast of the window's first byte with the source pixel, then variety within. */
  function Score(row: seq<byte>, start: nat, length: nat, pixel: seq<byte>): nat
    requires |pixel| == 4 && 0 < length && start + length <= |row|
  {
    Abs(row[start] as int - pixel[start % 4] as int) * length + Changes(row[start..start + length])
  }

  method MeasureScore(row: seq<byte>, start: nat, length: nat, pixel: seq<byte>) returns (score: nat)
    requires |pixel| == 4 && 0 < length && start + length <= |row|
    ensures score == Score(row, start, length, pixel)
  {
    score := Abs(row[start] as int - pixel[start % 4] as int) * length;
    ghost var window := row[start..start + length];
    ghost var base := score;
    for i := 1 to length
      invariant score == base + Changes(window[..i])
    {
      assert window[..i + 1][..i] == window[..i];
      assert window[i] == row[start + i] && window[i - 1] == row[start + i - 1];
      if row[start + i] != row[start + i - 1] { score := score + 1; }
    }
    assert window[..length] == window;
  }

  function RowDetail(ref: Image, r: nat): nat
    requires Packed(ref) && r < Height(ref)
  {
    Detail(Row(ref, r), Width(ref))
  }

  /** Of rows 1 to n - 1 this one is the most detailed, the first of several. */
  predicate BestRow(ref: Image, row: nat, n: nat)
    requires Packed(ref) && row < Height(ref) && n <= Height(ref)
  {
    forall r :: 1 <= r < n ==> RowDetail(ref, r) < RowDetail(ref, row) || (RowDetail(ref, r) == RowDetail(ref, row) && row <= r)
  }

  /** Of the windows before n this one has the highest score, the first of several. */
  predicate BestWindow(row: seq<byte>, start: nat, n: nat, length: nat, pixel: seq<byte>)
    requires |pixel| == 4 && 0 < length && start + length <= |row| && n + length <= |row| + 1
  {
    forall s :: 0 <= s < n ==>
      Score(row, s, length, pixel) < Score(row, start, length, pixel)
      || (Score(row, s, length, pixel) == Score(row, start, length, pixel) && start <= s)
  }

  /** `selectLocateAnchor`: the most detailed other row and its most telling window, ties to the first. */
  method SelectAnchor(ref: Image, pixel: seq<byte>) returns (a: Anchor)
    requires Packed(ref) && |pixel| == 4
    ensures Inside(ref, a) && a.length == (if Width(ref) * 4 < WINDOW_BYTES then Width(ref) * 4 else WINDOW_BYTES)
    ensures if Height(ref) == 1 then a.row == 0 else a.row >= 1 && BestRow(ref, a.row, Height(ref))
    ensures BestWindow(Row(ref, a.row), a.start, Width(ref) * 4 - a.length + 1, a.length, pixel)
  {
    var row := SelectRow(ref);
    RowInside(ref, row);
    var length := if Width(ref) * 4 < WINDOW_BYTES then Width(ref) * 4 else WINDOW_BYTES;
    var start := SelectWindow(Row(ref, row), length, pixel);
    a := Anchor(row, start, length);
  }

  method SelectRow(ref: Image) returns (row: nat)
    requires Packed(ref)
    ensures row < Height(ref)
    ensures if Height(ref) == 1 then row == 0 else row >= 1 && BestRow(ref, row, Height(ref))
  {
    if Height(ref) == 1 { return 0; }
    hide Row, Packed, Detail, RowDetail;
    var score: int := -1;
    row := 1;
    for candidate := 1 to Height(ref)
      invariant 1 <= row < Height(ref) && (candidate == 1 ==> score == -1 && row == 1)
      invariant candidate > 1 ==> row < candidate && score == RowDetail(ref, row)
      invariant BestRow(ref, row, candidate)
    {
      var detail := MeasureRow(ref, candidate);
      if detail > score { row, score := candidate, detail; }
    }
  }

  method MeasureRow(ref: Image, r: nat) returns (detail: nat)
    requires Packed(ref) && r < Height(ref)
    ensures detail == RowDetail(ref, r)
  {
    detail := MeasureDetail(Row(ref, r));
  }

  method SelectWindow(row: seq<byte>, length: nat, pixel: seq<byte>) returns (start: nat)
    requires |pixel| == 4 && 0 < length <= |row|
    ensures start + length <= |row| && BestWindow(row, start, |row| - length + 1, length, pixel)
  {
    hide Score;
    start := 0;
    var best: int := -1;
    for candidate := 0 to |row| - length + 1
      invariant start + length <= |row| && (candidate == 0 ==> best == -1 && start == 0)
      invariant candidate > 0 ==> start < candidate && best == Score(row, start, length, pixel)
      invariant BestWindow(row, start, candidate, length, pixel)
    {
      var score := MeasureScore(row, candidate, length, pixel);
      if score > best { start, best := candidate, score; }
    }
  }

  // ------------------------------------------------------------------- the scan

  /** How the scan of a row, or of the whole image, ends. */
  datatype Outcome = Hit(x: int, y: int) | Missed | Reselect(anchor: Anchor)

  /** No match in row y whose anchor would show up before this byte offset. */
  ghost predicate RowClear(src: Image, ref: Image, y: int, a: Anchor, from: int)
    requires Comparable(src, ref)
  {
    forall x :: Within(src, ref, x, y) && x * 4 + a.start < from ==> !Matches(src, ref, x, y)
  }

  /** Before `at` the anchor does not occur, so nothing matches there. */
  lemma SkipTo(src: Image, ref: Image, y: int, a: Anchor, row: seq<byte>, part: seq<byte>, from: int, to: int)
    requires Comparable(src, ref) && Inside(ref, a) && 0 <= y <= Height(src) - Height(ref)
    requires row == Row(src, y + a.row) && part == Row(ref, a.row)[a.start..a.start + a.length]
    requires RowClear(src, ref, y, a, from)
    requires forall i :: from <= i < to ==> !Occurs(row, part, i)
    ensures RowClear(src, ref, y, a, to)
  {
    hide Row, Packed, Matches, Occurs;
    forall x | Within(src, ref, x, y) && x * 4 + a.start < to ensures !Matches(src, ref, x, y) {
      if x * 4 + a.start >= from && Matches(src, ref, x, y) {
        MatchShowsAnchor(src, ref, x, y, a);
        assert false;
      }
    }
  }

  lemma OneFurther(src: Image, ref: Image, y: int, a: Anchor, at: int)
    requires Comparable(src, ref) && RowClear(src, ref, y, a, at)
    requires (at - a.start) % 4 == 0 && Within(src, ref, (at - a.start) / 4, y) ==> !Matches(src, ref, (at - a.start) / 4, y)
    ensures RowClear(src, ref, y, a, at + 1)
  {
    hide Packed, Matches;
    forall x | Within(src, ref, x, y) && x * 4 + a.start < at + 1 ensures !Matches(src, ref, x, y) {
      if x * 4 + a.start == at { assert x == (at - a.start) / 4; }
    }
  }

  /** Scans one row for the anchor; in the first pass, the eighth false candidate may suggest another. */
  method ScanRow(src: Image, ref: Image, y: int, a: Anchor, firstPass: bool, failures0: nat) returns (o: Outcome, failures: nat)
    requires Comparable(src, ref) && Inside(ref, a) && 0 <= y <= Height(src) - Height(ref)
    ensures o.Hit? ==> o.y == y && Within(src, ref, o.x, y) && Matches(src, ref, o.x, y) && RowClear(src, ref, y, a, o.x * 4 + a.start)
    ensures o.Missed? ==> forall x :: Within(src, ref, x, y) ==> !Matches(src, ref, x, y)
    ensures o.Reselect? ==> firstPass && Inside(ref, o.anchor) && o.anchor != FIRST_PIXEL
  {
    hide Packed, Matches, Occurs;
    failures := failures0;
    RowInside(src, y + a.row);
    RowInside(ref, a.row);
    var rowStart := (y + a.row) * src.stride;
    var row, part := Row(src, y + a.row), Row(ref, a.row)[a.start..a.start + a.length];
    var from := 0;
    while from < |row|
      invariant 0 <= from <= |row| && RowClear(src, ref, y, a, from)
    {
      var at := Index(row, part, from);
      if at < 0 {
        SkipTo(src, ref, y, a, row, part, from, |row|);
        return Missed, failures;
      }
      SkipTo(src, ref, y, a, row, part, from, at);
      var pixelOffset := at - a.start;
      if pixelOffset >= 0 && pixelOffset % 4 == 0 && pixelOffset / 4 <= Width(src) - Width(ref) {
        var x := pixelOffset / 4;
        var same := MatchAt(src, ref, x, y);
        if same { return Hit(x, y), failures; }
        failures := failures + 1;
        if firstPass && failures == FALLBACK_CANDIDATES {
          var anchor := SelectAnchor(ref, Row(src, y + a.row)[x * 4..x * 4 + 4]);
          if anchor != FIRST_PIXEL { return Reselect(anchor), failures; }
        }
      }
      OneFurther(src, ref, y, a, at);
      assert at < |row| by { OccurrenceInside(row, part, at); }
      from := at + 1;
    }
    return Missed, failures;
  }

  lemma OccurrenceInside(row: seq<byte>, part: seq<byte>, at: int)
    requires Occurs(row, part, at) && part != []
    ensures at < |row|
  {}

  ghost predicate ClearAbove(src: Image, ref: Image, y: int)
    requires Comparable(src, ref)
  {
    forall x', y' :: Within(src, ref, x', y') && y' < y ==> !Matches(src, ref, x', y')
  }

  /** One pass over all rows with one anchor. */
  method ScanPass(src: Image, ref: Image, a: Anchor, firstPass: bool) returns (o: Outcome)
    requires Comparable(src, ref) && Inside(ref, a)
    ensures o.Hit? ==> First(src, ref, o.x, o.y)
    ensures o.Missed? ==> forall x, y :: Within(src, ref, x, y) ==> !Matches(src, ref, x, y)
    ensures o.Reselect? ==> firstPass && Inside(ref, o.anchor)
  {
    hide Packed, Matches;
    var failures := 0;
    var y := 0;
    while y <= Height(src) - Height(ref)
      invariant 0 <= y <= Height(src) - Height(ref) + 1 && ClearAbove(src, ref, y)
    {
      o, failures := ScanRow(src, ref, y, a, firstPass, failures);
      if !o.Missed? { return; }
      y := y + 1;
    }
    return Missed;
  }

  /** The reference's extent at an offset into an area. */
  function PlaceAt(area: Rect, ref: Image, x: int, y: int): Rect {
    Rect(area.minX + x, area.minY + y, area.minX + x + ref.rect.Dx(), area.minY + y + ref.rect.Dy())
  }

  /** `LocateExactInImage` on RGBA images: the first match in raster order, placed in the area
      the source was captured from; not found exactly when no position matches. */
  method LocateExact(src: Image, area: Rect, ref: Image) returns (r: Result)
    ensures area.Empty() ==> r == Err(EmptyArea)
    ensures !area.Empty() && ref.rect.Empty() ==> r == Err(EmptyReference)
    ensures !area.Empty() && !ref.rect.Empty() && !(Packed(src) && Packed(ref)) ==> r == Err(MalformedLayout)
    ensures !area.Empty() && Packed(src) && Packed(ref) && !Comparable(src, ref) ==> r == Err(LargerThanArea)
    ensures !area.Empty() && Comparable(src, ref) ==>
      if exists x, y :: Within(src, ref, x, y) && Matches(src, ref, x, y)
      then exists x, y :: First(src, ref, x, y) && r == Ok(PlaceAt(area, ref, x, y))
      else r == Err(NotFound)
  {
    if area.Empty() { return Err(EmptyArea); }
    if ref.rect.Empty() { return Err(EmptyReference); }
    if !Packed(src) || !Packed(ref) { return Err(MalformedLayout); }
    if ref.rect.Dx() > src.rect.Dx() || ref.rect.Dy() > src.rect.Dy() { return Err(LargerThanArea); }
    hide Packed, Matches;
    var anchor, pass := FIRST_PIXEL, 0;
    assert Inside(ref, anchor);
    while pass < 2
      invariant 0 <= pass <= 2 && Inside(ref, anchor)
      invariant pass == 2 ==> forall x, y :: Within(src, ref, x, y) ==> !Matches(src, ref, x, y)
    {
      var o := ScanPass(src, ref, anchor, pass == 0);
      match o {
        case Hit(x, y) =>
          var min := src.rect;
          return Ok(Translate(Rect(min.minX + x, min.minY + y, min.minX + x + ref.rect.Dx(), min.minY + y + ref.rect.Dy()),
            min.minX, min.minY, area.minX, area.minY));
        case Missed => return Err(NotFound);
        case Reselect(a) => anchor, pass := a, pass + 1;
      }
    }
    return Err(NotFound);
  }
}
