/**
 * The upload-side image compression (lib/imageCompression.ts): which files
 * are compressed, the dimensions the canvas is given, the output format's
 * extension and the rewritten file name, the option merge and the presets.
 * Dimensions are real numbers; the browser's reading, decoding, drawing and
 * encoding are not modelled. The dimensions are those the code computes;
 * FitDimensions is the box-fitting resize the code evidently intends, kept
 * as a reference beside it.
 */
module ImageCompression {
  import opened Wrappers
  import opened Strings

  datatype Format = Jpeg | Webp | Png

  function MimeType(f: Format): string {
    match f
    case Jpeg => "image/jpeg"
    case Webp => "image/webp"
    case Png => "image/png"
  }

  /** CompressionOptions: every field optional. */
  datatype CompressionOptions = CompressionOptions(
    maxWidth: Option<real>, maxHeight: Option<real>, quality: Option<real>, format: Option<Format>)

  /** The options once merged: every field present. */
  datatype Settings = Settings(maxWidth: real, maxHeight: real, quality: real, format: Format)

  const DefaultSettings: Settings := Settings(1200.0, 1800.0, 0.85, Webp)

  /** `{ ...DEFAULT_OPTIONS, ...options }`: a field the caller gives wins. */
  function MergeOptions(options: CompressionOptions): (s: Settings)
    ensures options.maxWidth.Some? ==> s.maxWidth == options.maxWidth.value
    ensures options.maxWidth.None? ==> s.maxWidth == DefaultSettings.maxWidth
    ensures options.maxHeight.Some? ==> s.maxHeight == options.maxHeight.value
    ensures options.maxHeight.None? ==> s.maxHeight == DefaultSettings.maxHeight
    ensures options.quality.Some? ==> s.quality == options.quality.value
    ensures options.quality.None? ==> s.quality == DefaultSettings.quality
    ensures options.format.Some? ==> s.format == options.format.value
    ensures options.format.None? ==> s.format == DefaultSettings.format
  {
    Settings(options.maxWidth.GetOr(DefaultSettings.maxWidth),
             options.maxHeight.GetOr(DefaultSettings.maxHeight),
             options.quality.GetOr(DefaultSettings.quality),
             options.format.GetOr(DefaultSettings.format))
  }

  /** No options at all means the defaults. */
  lemma EmptyOptionsGiveDefaults()
    ensures MergeOptions(CompressionOptions(None, None, None, None)) == DefaultSettings
  {
  }

  const CoverPreset: CompressionOptions := CompressionOptions(Some(800.0), Some(1200.0), Some(0.85), Some(Webp))
  const PostPreset: CompressionOptions := CompressionOptions(Some(1200.0), Some(800.0), Some(0.8), Some(Webp))
  const ThumbnailPreset: CompressionOptions := CompressionOptions(Some(400.0), Some(400.0), Some(0.75), Some(Webp))

  /** The presets: portrait covers, landscape post images and square
      thumbnails, all WebP. */
  lemma PresetShapes()
    ensures var c := MergeOptions(CoverPreset); c.maxWidth < c.maxHeight && c.format == Webp
    ensures var p := MergeOptions(PostPreset); p.maxWidth > p.maxHeight && p.format == Webp
    ensures var t := MergeOptions(ThumbnailPreset); t.maxWidth == t.maxHeight && t.format == Webp
  {
  }

  const SkipBelowBytes: nat := 100 * 1024

  /** Files under 100 KiB are returned untouched. */
  predicate SkipsCompression(size: nat) {
    size < SkipBelowBytes
  }

  function Min(a: real, b: real): real { if a < b then a else b }

  /** A landscape image: the width is clamped and the height follows it. */
  function ClampWidth(width: real, height: real, maxWidth: real): (d: (real, real))
    requires width > 0.0 && height > 0.0
    ensures d.0 <= maxWidth && d.0 <= width && d.1 <= height
    ensures d.0 * height == d.1 * width
  {
    var w := Min(width, maxWidth);
    LandscapeStep(width, height, w);
    (w, w / (width / height))
  }

  /** Any other image: the height is clamped and the width follows it. */
  function ClampHeight(width: real, height: real, maxHeight: real): (d: (real, real))
    requires width > 0.0 && height > 0.0
    ensures d.1 <= maxHeight && d.1 <= height && d.0 <= width
    ensures d.0 * height == d.1 * width
  {
    var h := Min(height, maxHeight);
    PortraitStep(width, height, h);
    (h * (width / height), h)
  }

  /** The dimensions the code computes: unchanged when the image fits;
      otherwise a landscape image has its width clamped and any other its
      height, the other side following the aspect ratio. */
  function ResizedDimensions(width: real, height: real, maxWidth: real, maxHeight: real): (d: (real, real))
    requires width > 0.0 && height > 0.0
    ensures d.0 <= width && d.1 <= height
    ensures d.0 * height == d.1 * width
    ensures width > height && width > maxWidth ==> d.0 == maxWidth
    ensures width <= height && height > maxHeight ==> d.1 == maxHeight
  {
    if width > maxWidth || height > maxHeight then
      if width > height then ClampWidth(width, height, maxWidth) else ClampHeight(width, height, maxHeight)
    else (width, height)
  }

  /** The resize step of compressImage, reassigning `width` and `height` as
      the code does. */
  method ComputeDimensions(imgWidth: real, imgHeight: real, s: Settings) returns (width: real, height: real)
    requires imgWidth > 0.0 && imgHeight > 0.0
    ensures (width, height) == ResizedDimensions(imgWidth, imgHeight, s.maxWidth, s.maxHeight)
  {
    width, height := imgWidth, imgHeight;
    if width > s.maxWidth || height > s.maxHeight {
      var aspectRatio := width / height;
      if width > height {
        width := Min(width, s.maxWidth);
        height := width / aspectRatio;
        assert (width, height) == ClampWidth(imgWidth, imgHeight, s.maxWidth);
      } else {
        height := Min(height, s.maxHeight);
        width := height * aspectRatio;
        var c := ClampHeight(imgWidth, imgHeight, s.maxHeight);
        assert aspectRatio == imgWidth / imgHeight;
        assert c.1 == height;
        assert c.0 == height * (imgWidth / imgHeight);
        assert width == c.0;
        assert (width, height) == c;
        assert c == ResizedDimensions(imgWidth, imgHeight, s.maxWidth, s.maxHeight);
      }
    }
  }

  lemma DivMul(a: real, b: real)
    requires b != 0.0
    ensures a / b * b == a
  {
  }

  lemma MulMonotone(x: real, y: real, c: real)
    requires x <= y && c >= 0.0
    ensures x * c <= y * c
  {
  }

  lemma MulCancel(x: real, y: real, c: real)
    requires c > 0.0 && x * c <= y * c
    ensures x <= y
  {
  }

  /** The landscape branch: the height follows the clamped width. */
  lemma LandscapeStep(width: real, height: real, w: real)
    requires width > 0.0 && height > 0.0 && w <= width
    ensures var h := w / (width / height); w * height == h * width && h <= height
  {
    var a := width / height;
    DivMul(width, height);
    assert a > 0.0;
    var h := w / a;
    DivMul(w, a);
    assert h * width == h * (a * height);
    assert h * (a * height) == (h * a) * height;
    MulCancel(h, height, a);
  }

  /** The other branch: the width follows the clamped height. */
  lemma PortraitStep(width: real, height: real, h: real)
    requires width > 0.0 && height > 0.0 && h <= height
    ensures var w := h * (width / height); w * height == h * width && w <= width
  {
    var a := width / height;
    DivMul(width, height);
    assert (h * a) * height == h * (a * height);
    MulMonotone(h, height, a);
  }

  /** What the code's resize promises of `(w, h)` for a `width` x `height`
      image: the aspect ratio is kept, neither side grows, a fitting image is
      left alone, and the width of a landscape image (the height of any
      other) is clamped to its maximum. */
  predicate ResizeKeepsShape(w: real, h: real, width: real, height: real, maxWidth: real, maxHeight: real) {
    && w * height == h * width && w <= width && h <= height
    && (width <= maxWidth && height <= maxHeight ==> w == width && h == height)
    && (width > height && (width > maxWidth || height > maxHeight) ==> w == Min(width, maxWidth))
    && (width <= height && (width > maxWidth || height > maxHeight) ==> h == Min(height, maxHeight))
  }

  /** The computed dimensions keep the aspect ratio, never grow, leave a
      fitting image alone, and clamp the width of a landscape image (the
      height of any other) to its maximum. */
  lemma AspectKept(width: real, height: real, maxWidth: real, maxHeight: real)
    requires width > 0.0 && height > 0.0
    ensures var (w, h) := ResizedDimensions(width, height, maxWidth, maxHeight);
            ResizeKeepsShape(w, h, width, height, maxWidth, maxHeight)
  {
    if width > maxWidth || height > maxHeight {
      if width > height {
        LandscapeStep(width, height, Min(width, maxWidth));
      } else {
        PortraitStep(width, height, Min(height, maxHeight));
      }
    }
  }

  /** The computed dimensions can overflow the box on the side that is not
      clamped: a 1000 x 1100 image under the cover preset (800 x 1200) keeps
      its width of 1000. */
  lemma ResizeOvershootsBox()
    ensures var s := MergeOptions(CoverPreset);
            ResizedDimensions(1000.0, 1100.0, s.maxWidth, s.maxHeight) == (1000.0, 1100.0)
            && 1000.0 > s.maxWidth
  {
  }

  /** The scale that fits the image inside the box without enlarging it. */
  function FitScale(width: real, height: real, maxWidth: real, maxHeight: real): (k: real)
    requires width > 0.0 && height > 0.0 && maxWidth > 0.0 && maxHeight > 0.0
    ensures 0.0 < k <= 1.0
    ensures k * width <= maxWidth && k * height <= maxHeight
  {
    var k := Min(1.0, Min(maxWidth / width, maxHeight / height));
    DivMul(maxWidth, width);
    DivMul(maxHeight, height);
    MulMonotone(k, maxWidth / width, width);
    MulMonotone(k, maxHeight / height, height);
    k
  }

  /** The intended resize: scale both sides by one factor chosen so that the
      result fits the box. */
  function FitDimensions(width: real, height: real, maxWidth: real, maxHeight: real): (d: (real, real))
    requires width > 0.0 && height > 0.0 && maxWidth > 0.0 && maxHeight > 0.0
    ensures d.0 <= maxWidth && d.1 <= maxHeight
    ensures d.0 * height == d.1 * width
  {
    var k := FitScale(width, height, maxWidth, maxHeight);
    assert (k * width) * height == (k * height) * width;
    (k * width, k * height)
  }

  /** The intended resize keeps the aspect ratio, never enlarges, always fits
      the box, and leaves an image that already fits unchanged. */
  lemma FitDimensionsFitBox(width: real, height: real, maxWidth: real, maxHeight: real)
    requires width > 0.0 && height > 0.0 && maxWidth > 0.0 && maxHeight > 0.0
    ensures var (w, h) := FitDimensions(width, height, maxWidth, maxHeight);
            w * height == h * width && 0.0 < w <= width && 0.0 < h <= height
            && w <= maxWidth && h <= maxHeight
            && (width <= maxWidth && height <= maxHeight ==> w == width && h == height)
  {
    var k := FitScale(width, height, maxWidth, maxHeight);
    MulMonotone(k, 1.0, width);
    MulMonotone(k, 1.0, height);
    if width <= maxWidth && height <= maxHeight {
      var a, b := maxWidth / width, maxHeight / height;
      DivMul(maxWidth, width);
      DivMul(maxHeight, height);
      assert 1.0 * width == width && 1.0 * height == height;
      MulCancel(1.0, a, width);
      MulCancel(1.0, b, height);
      assert k == 1.0;
    }
  }

  /** The extension matching the output format. */
  function Extension(f: Format): (ext: string)
    ensures ext in {"webp", "jpg", "png"}
    ensures '.' !in ext
  {
    match f
    case Webp => "webp"
    case Jpeg => "jpg"
    case Png => "png"
  }

  /** `name.replace(/\.[^.]+$/, '.' + ext)`: the text after the last `.` is
      replaced when it is non-empty; a name without a `.`, or ending in one,
      is kept. */
  function RewriteFileName(name: string, ext: string): (r: string)
    ensures '.' !in name ==> r == name
  {
    var tail := AfterLast(name, '.');
    if |tail| < |name| && tail != [] then name[..|name| - |tail|] + ext else name
  }

  /** A rewritten name keeps everything up to and including its last `.`, and
      its text after the last `.` is then exactly the new extension. */
  lemma RewriteSetsExtension(name: string, ext: string)
    requires '.' in name && name[|name| - 1] != '.'
    requires ext != [] && '.' !in ext
    ensures var r := RewriteFileName(name, ext);
            AfterLast(r, '.') == ext
            && r[..|r| - |ext|] == name[..|name| - |AfterLast(name, '.')|]
  {
    var tail := AfterLast(name, '.');
    assert tail != name;
    assert |tail| < |name| by {
      assert name[|name| - |name|..] == name;
    }
    assert tail != [];
    var head := name[..|name| - |tail|];
    assert head[|head| - 1] == '.';
    AfterLastOfSuffix(head, ext);
    var r := head + ext;
    assert r == RewriteFileName(name, ext);
    assert r[..|r| - |ext|] == head;
  }

  lemma {:induction false} AfterLastOfSuffix(head: string, ext: string)
    requires head != [] && head[|head| - 1] == '.' && '.' !in ext
    ensures AfterLast(head + ext, '.') == ext
    decreases |ext|
  {
    if ext == [] {
      assert head + ext == head;
    } else {
      var s := head + ext;
      var e := ext[..|ext| - 1];
      var last := ext[|ext| - 1];
      assert s[|s| - 1] == last;
      assert last in ext;
      assert s[..|s| - 1] == head + e;
      assert AfterLast(s, '.') == AfterLast(head + e, '.') + [last];
      AfterLastOfSuffix(head, e);
      assert e + [last] == ext;
    }
  }

  datatype ImageFile = ImageFile(name: string, mimeType: string, size: nat)

  /** What compressImage resolves to: the same file, or a new file with the
      rewritten name, the chosen format and the canvas dimensions. */
  datatype Compressed = Unchanged(file: ImageFile) | Reencoded(name: string, mimeType: string, width: real, height: real)

  /** compressImage for an image whose decoded size is `imgWidth` x
      `imgHeight`: the canvas gets the dimensions the code computes, which keep
      the aspect ratio and never grow, and which clamp the width of a
      landscape image (the height of any other) to its maximum. */
  function CompressImage(file: ImageFile, imgWidth: real, imgHeight: real, options: CompressionOptions): (c: Compressed)
    requires imgWidth > 0.0 && imgHeight > 0.0
    ensures SkipsCompression(file.size) <==> c == Unchanged(file)
    ensures c.Reencoded? ==> c.name == RewriteFileName(file.name, Extension(MergeOptions(options).format))
    ensures c.Reencoded? ==> c.mimeType == MimeType(MergeOptions(options).format)
    ensures c.Reencoded? ==>
              var s := MergeOptions(options);
              (c.width, c.height) == ResizedDimensions(imgWidth, imgHeight, s.maxWidth, s.maxHeight)
              && ResizeKeepsShape(c.width, c.height, imgWidth, imgHeight, s.maxWidth, s.maxHeight)
  {
    var s := MergeOptions(options);
    if SkipsCompression(file.size) then Unchanged(file)
    else
      AspectKept(imgWidth, imgHeight, s.maxWidth, s.maxHeight);
      var d := ResizedDimensions(imgWidth, imgHeight, s.maxWidth, s.maxHeight);
      Reencoded(RewriteFileName(file.name, Extension(s.format)), MimeType(s.format), d.0, d.1)
  }

  /** The name of the file compressBookCover hands back. */
  function CompressedCoverName(file: ImageFile): (name: string)
    ensures SkipsCompression(file.size) ==> name == file.name
    ensures !SkipsCompression(file.size) ==> name == RewriteFileName(file.name, "webp")
  {
    if SkipsCompression(file.size) then file.name else RewriteFileName(file.name, Extension(Webp))
  }
}
