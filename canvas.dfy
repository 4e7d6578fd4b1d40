/** The canvas: a row-major pixel buffer whose length is kept at `Width * Height`,
    paired with a native texture that is created, recreated and destroyed on demand. */
module Canvases {
  import opened Basics

  datatype BlendMode = NoBlending | Alpha | Additive | Modulate

  /** The filter used when the canvas texture is scaled; the first member is C#'s default value. */
  datatype ScalingQuality = Nearest | Linear | Best

  datatype TextureAccess = Static | Streaming | Target

  /** An opaque native handle (renderer or texture). */
  datatype Handle = Handle(id: nat)

  /** The native graphics calls a canvas makes, in the order it makes them. */
  datatype NativeCall =
    | SetScaleHint(quality: ScalingQuality)
    | CreateNativeTexture(renderer: Handle, access: TextureAccess, width: int32, height: int32, texture: Handle)
    | DestroyNativeTexture(texture: Handle)
    | SetTextureBlendMode(texture: Handle, mode: BlendMode)
    | UpdateNativeTexture(texture: Handle, pitch: int32)

  datatype CanvasError = NonPositiveWidth | NonPositiveHeight | TooManyPixels

  // ---------------------------------------------------------------------------
  // Index arithmetic

  /** The array index of pixel (x, y) in a row-major buffer `width` pixels wide. */
  function Index(width: int, x: int, y: int): (i: int)
    ensures 0 <= width && 0 <= x && 0 <= y ==> 0 <= i
  {
    width * y + x
  }

  lemma IndexInBounds(width: int, height: int, x: int, y: int)
    requires 0 <= x < width && 0 <= y < height
    ensures 0 <= Index(width, x, y) < width * height
  {
    assert width * y >= 0;
    assert width * y + width == width * (y + 1) <= width * height;
  }

  /** w * d >= w for a positive width and a positive row distance. */
  lemma MulAtLeast(w: int, d: int)
    requires 0 < w && 1 <= d
    ensures w * d >= w
  {
    assert w * d == w + w * (d - 1);
  }

  /** Different pixels have different indices: the index map is injective. */
  lemma IndexInjective(width: int, x: int, y: int, x': int, y': int)
    requires 0 <= x < width && 0 <= x' < width
    requires Index(width, x, y) == Index(width, x', y')
    ensures x == x' && y == y'
  {
    if y < y' {
      assert width * y' == width * y + width * (y' - y);
      MulAtLeast(width, y' - y);
    } else if y' < y {
      assert width * y == width * y' + width * (y - y');
      MulAtLeast(width, y - y');
    }
  }

  /** Every index of a `width * height` buffer is the index of exactly one pixel:
      the inverse of `Index` is (i % width, i / width). */
  lemma IndexCovers(width: int, height: int, i: int)
    requires 0 < width && 0 <= i < width * height
    ensures 0 <= i % width < width && 0 <= i / width < height
    ensures Index(width, i % width, i / width) == i
  {
    var q, r := i / width, i % width;
    assert i == width * q + r;
  }

  /** Division and remainder by the width take an index back to its pixel. */
  lemma IndexDivMod(width: int, height: int, x: int, y: int)
    requires 0 <= x < width && 0 <= y < height
    ensures Index(width, x, y) / width == y && Index(width, x, y) % width == x
  {
    var i := Index(width, x, y);
    IndexInBounds(width, height, x, y);
    IndexCovers(width, height, i);
    IndexInjective(width, i % width, i / width, x, y);
  }

  /** `IndexInjective` for all pixels at once, in the form loops over pixels use. */
  lemma IndexDistinct(width: int)
    ensures forall x, y, x', y' ::
      0 <= x < width && 0 <= x' < width && (x != x' || y != y') ==>
        Index(width, x, y) != Index(width, x', y')
  {
    forall x, y, x', y' | 0 <= x < width && 0 <= x' < width && Index(width, x, y) == Index(width, x', y')
      ensures x == x' && y == y'
    {
      IndexInjective(width, x, y, x', y');
    }
  }

  // ---------------------------------------------------------------------------
  // The pixel count

  /** `Width * Height` as the source computes it, with C#'s unchecked 32-bit multiplication. */
  function UncheckedPixelCount(width: int32, height: int32): (r: int32)
    ensures INT32_MIN <= width * height <= INT32_MAX ==> r == width * height
  {
    Wrap32(width * height)
  }

  /** A 65536 x 65537 canvas gets a 65536-pixel buffer: the product wraps past 2^32 to a
      positive number, no exception is raised, and `Pixels.Length != Width * Height`. */
  lemma PixelCountWrapsSilently()
    ensures UncheckedPixelCount(65536, 65537) == 65536
    ensures 65536 * 65537 != 65536
  {
  }

  /** The pixel count the canvas allocates: refused when `Width * Height` does not fit an `int`. */
  function CheckedPixelCount(width: int32, height: int32): (r: Result<int32, CanvasError>)
    requires 0 < width && 0 < height
    ensures r.Ok? <==> width * height <= INT32_MAX
    ensures r.Ok? ==> r.value == width * height && 0 < r.value
    ensures r.Err? ==> r.error == TooManyPixels
  {
    if width * height <= INT32_MAX then Ok(width * height) else Err(TooManyPixels)
  }

  /** The calls `CreateTexture` makes when a renderer is attached: destroy the old texture
      if there is one, set the scaling hint, create the new texture, set its blend mode. */
  function CreationCalls(renderer: Handle, hadTexture: bool, oldTexture: Option<Handle>,
                         access: TextureAccess, quality: ScalingQuality, mode: BlendMode,
                         width: int32, height: int32, texture: Handle): (r: seq<NativeCall>)
    requires hadTexture ==> oldTexture.Some?
    ensures |r| == if hadTexture then 4 else 3
    ensures r[|r| - 2] == CreateNativeTexture(renderer, access, width, height, texture)
    ensures hadTexture ==> r[0] == DestroyNativeTexture(oldTexture.value)
  {
    (if hadTexture then [DestroyNativeTexture(oldTexture.value)] else [])
    + [SetScaleHint(quality), CreateNativeTexture(renderer, access, width, height, texture),
       SetTextureBlendMode(texture, mode)]
  }

  // ---------------------------------------------------------------------------
  // The canvas

  class Canvas {
    var width: int32
    var height: int32
    var hasTexture: bool
    var scalingQuality: ScalingQuality
    var blendMode: BlendMode
    /** The renderer the texture is created on; `None` is `IntPtr.Zero`. */
    var renderer: Option<Handle>
    /** The last texture created; `None` is `IntPtr.Zero`. It is not cleared on destruction. */
    var texture: Option<Handle>
    var pixels: array<Color>
    var clipping: Rectangle
    /** The native calls made so far. */
    var calls: seq<NativeCall>

    ghost predicate Valid()
      reads this
    {
      && 0 < width && 0 < height
      && width * height <= INT32_MAX
      && pixels.Length == width * height
      && (hasTexture ==> texture.Some?)
    }

    /** Every pixel holds the default colour. */
    ghost predicate Cleared()
      reads this, pixels
    {
      forall i :: 0 <= i < pixels.Length ==> pixels[i] == DefaultColor
    }

    /** The two-argument constructor: the clipping rectangle is the whole canvas. */
    constructor (textureWidth: int32, textureHeight: int32)
      requires 0 < textureWidth && 0 < textureHeight
      requires textureWidth * textureHeight <= INT32_MAX
      ensures Valid() && fresh(pixels) && Cleared()
      ensures width == textureWidth && height == textureHeight
      ensures clipping == Rectangle(Point(0, 0), Point(textureWidth, textureHeight))
      ensures !hasTexture && renderer.None? && texture.None?
      ensures scalingQuality == Nearest && blendMode == Alpha && calls == []
    {
      width, height := textureWidth, textureHeight;
      clipping := Rectangle(Point(0, 0), Point(textureWidth, textureHeight));
      hasTexture, scalingQuality, blendMode := false, Nearest, Alpha;
      renderer, texture, calls := None, None, [];
      pixels := new Color[textureWidth * textureHeight](_ => DefaultColor);
    }

    /** The three-argument constructor: the dimensions are not checked, the clipping is as given. */
    constructor Clipped(textureWidth: int32, textureHeight: int32, clip: Rectangle)
      requires 0 < textureWidth && 0 < textureHeight
      requires textureWidth * textureHeight <= INT32_MAX
      ensures Valid() && fresh(pixels) && Cleared()
      ensures width == textureWidth && height == textureHeight && clipping == clip
      ensures !hasTexture && renderer.None? && texture.None?
      ensures scalingQuality == Nearest && blendMode == Alpha && calls == []
    {
      width, height, clipping := textureWidth, textureHeight, clip;
      hasTexture, scalingQuality, blendMode := false, Nearest, Alpha;
      renderer, texture, calls := None, None, [];
      pixels := new Color[textureWidth * textureHeight](_ => DefaultColor);
    }

    /** The array index of (x, y), computed with C#'s unchecked arithmetic. */
    function GetIndex(x: int32, y: int32): (r: int32)
      reads this
      ensures 0 <= x < width && 0 <= y < height && width * height <= INT32_MAX ==>
        r == Index(width, x, y) && 0 <= r < width * height
    {
      if 0 <= x < width && 0 <= y < height then
        IndexInBounds(width, height, x, y);
        Wrap32(width * y + x)
      else
        Wrap32(width * y + x)
    }

    /** The `Point` overload of `GetIndex`. */
    function GetIndexAt(point: Point): (r: int32)
      reads this
      ensures r == GetIndex(point.x, point.y)
    {
      Wrap32(width * point.y + point.x)
    }

    method DestroyTexture()
      modifies this
      ensures !hasTexture
      ensures calls == old(calls) + if old(hasTexture) then [DestroyNativeTexture(old(texture).value)] else []
      ensures old(hasTexture) ==> old(texture).Some?
      ensures texture == old(texture) && renderer == old(renderer) && pixels == old(pixels)
      ensures width == old(width) && height == old(height) && clipping == old(clipping)
      ensures scalingQuality == old(scalingQuality) && blendMode == old(blendMode)
      requires hasTexture ==> texture.Some?
    {
      if !hasTexture {
        return;
      }
      calls := calls + [DestroyNativeTexture(texture.value)];
      hasTexture := false;
    }

    /** Creates the texture, or recreates it if it exists; does nothing without a renderer.
        `newTexture` is the handle the native library returns. */
    method CreateTextureWithAccess(access: TextureAccess, newTexture: Handle)
      requires hasTexture ==> texture.Some?
      modifies this
      ensures renderer.None? ==> hasTexture == old(hasTexture) && texture == old(texture) && calls == old(calls)
      ensures renderer.Some? ==> hasTexture && texture == Some(newTexture)
      ensures renderer.Some? ==> calls == old(calls) + CreationCalls(renderer.value, old(hasTexture), old(texture),
                                                                    access, scalingQuality, blendMode, width, height, newTexture)
      ensures hasTexture ==> texture.Some?
      ensures renderer == old(renderer) && pixels == old(pixels)
      ensures width == old(width) && height == old(height) && clipping == old(clipping)
      ensures scalingQuality == old(scalingQuality) && blendMode == old(blendMode)
    {
      if renderer.None? {
        return;
      }
      DestroyTexture();
      calls := calls + [SetScaleHint(scalingQuality),
                        CreateNativeTexture(renderer.value, access, width, height, newTexture)];
      texture := Some(newTexture);
      hasTexture := true;
      calls := calls + [SetTextureBlendMode(newTexture, blendMode)];
    }

    /** `CreateTexture()`: a streaming texture. */
    method CreateTexture(newTexture: Handle)
      requires hasTexture ==> texture.Some?
      modifies this
      ensures renderer.None? ==> hasTexture == old(hasTexture) && texture == old(texture) && calls == old(calls)
      ensures renderer.Some? ==> hasTexture && texture == Some(newTexture)
      ensures renderer.Some? ==> calls == old(calls) + CreationCalls(renderer.value, old(hasTexture), old(texture),
                                                                    Streaming, scalingQuality, blendMode, width, height, newTexture)
      ensures hasTexture ==> texture.Some?
      ensures renderer == old(renderer) && pixels == old(pixels)
      ensures width == old(width) && height == old(height) && clipping == old(clipping)
      ensures scalingQuality == old(scalingQuality) && blendMode == old(blendMode)
    {
      CreateTextureWithAccess(Streaming, newTexture);
    }

    /** Reallocates the buffer for the current dimensions, which clears it, and recreates
        the texture if there is one. */
    method Resize(newTexture: Handle)
      requires 0 < width && 0 < height && width * height <= INT32_MAX
      requires hasTexture ==> texture.Some?
      modifies this
      ensures Valid() && fresh(pixels) && Cleared()
      ensures hasTexture == old(hasTexture)
      ensures old(hasTexture) && renderer.Some? ==>
        texture == Some(newTexture) &&
        calls == old(calls) + CreationCalls(renderer.value, true, old(texture), Streaming,
                                            scalingQuality, blendMode, width, height, newTexture)
      ensures !(old(hasTexture) && renderer.Some?) ==> texture == old(texture) && calls == old(calls)
      ensures renderer == old(renderer) && width == old(width) && height == old(height)
      ensures clipping == old(clipping) && scalingQuality == old(scalingQuality) && blendMode == old(blendMode)
    {
      pixels := new Color[width * height](_ => DefaultColor);
      if hasTexture {
        CreateTexture(newTexture);
      }
    }

    /** The `Width` setter. */
    method SetWidth(value: int32, newTexture: Handle) returns (r: Result<(), CanvasError>)
      requires Valid()
      modifies this
      ensures Valid()
      ensures value <= 0 ==> r == Err(NonPositiveWidth)
      ensures 0 < value ==> (r.Ok? <==> value * old(height) <= INT32_MAX)
      ensures r.Err? ==> unchanged(this)
      ensures r.Ok? ==> width == value && height == old(height) && fresh(pixels) && Cleared()
      ensures r.Ok? ==> hasTexture == old(hasTexture) && renderer == old(renderer)
      ensures r.Ok? && old(hasTexture) && renderer.Some? ==>
        texture == Some(newTexture) &&
        calls == old(calls) + CreationCalls(renderer.value, true, old(texture), Streaming,
                                            scalingQuality, blendMode, width, height, newTexture)
      ensures r.Ok? && !(old(hasTexture) && renderer.Some?) ==> texture == old(texture) && calls == old(calls)
      ensures clipping == old(clipping) && scalingQuality == old(scalingQuality) && blendMode == old(blendMode)
    {
      if value <= 0 {
        return Err(NonPositiveWidth);
      }
      var count := CheckedPixelCount(value, height);
      if count.Err? {
        return Err(count.error);
      }
      width := value;
      Resize(newTexture);
      r := Ok(());
    }

    /** The `Height` setter. */
    method SetHeight(value: int32, newTexture: Handle) returns (r: Result<(), CanvasError>)
      requires Valid()
      modifies this
      ensures Valid()
      ensures value <= 0 ==> r == Err(NonPositiveHeight)
      ensures 0 < value ==> (r.Ok? <==> old(width) * value <= INT32_MAX)
      ensures r.Err? ==> unchanged(this)
      ensures r.Ok? ==> height == value && width == old(width) && fresh(pixels) && Cleared()
      ensures r.Ok? ==> hasTexture == old(hasTexture) && renderer == old(renderer)
      ensures r.Ok? && old(hasTexture) && renderer.Some? ==>
        texture == Some(newTexture) &&
        calls == old(calls) + CreationCalls(renderer.value, true, old(texture), Streaming,
                                            scalingQuality, blendMode, width, height, newTexture)
      ensures r.Ok? && !(old(hasTexture) && renderer.Some?) ==> texture == old(texture) && calls == old(calls)
      ensures clipping == old(clipping) && scalingQuality == old(scalingQuality) && blendMode == old(blendMode)
    {
      if value <= 0 {
        return Err(NonPositiveHeight);
      }
      var count := CheckedPixelCount(width, value);
      if count.Err? {
        return Err(count.error);
      }
      height := value;
      Resize(newTexture);
      r := Ok(());
    }

    /** The `BlendMode` setter: stored, and passed on to the texture if there is one. */
    method SetBlendMode(mode: BlendMode)
      requires Valid()
      modifies this
      ensures Valid() && blendMode == mode
      ensures calls == old(calls) + if hasTexture then [SetTextureBlendMode(texture.value, mode)] else []
      ensures hasTexture == old(hasTexture) && texture == old(texture) && renderer == old(renderer)
      ensures pixels == old(pixels) && width == old(width) && height == old(height)
      ensures clipping == old(clipping) && scalingQuality == old(scalingQuality)
    {
      blendMode := mode;
      if hasTexture {
        calls := calls + [SetTextureBlendMode(texture.value, blendMode)];
      }
    }

    /** The `ScalingQuality` setter: stored, and the texture is recreated if there is one. */
    method SetScalingQuality(quality: ScalingQuality, newTexture: Handle)
      requires Valid()
      modifies this
      ensures Valid() && scalingQuality == quality && hasTexture == old(hasTexture)
      ensures old(hasTexture) && renderer.Some? ==>
        texture == Some(newTexture) &&
        calls == old(calls) + CreationCalls(renderer.value, true, old(texture), Streaming,
                                            quality, blendMode, width, height, newTexture)
      ensures !(old(hasTexture) && renderer.Some?) ==> texture == old(texture) && calls == old(calls)
      ensures renderer == old(renderer) && pixels == old(pixels) && width == old(width) && height == old(height)
      ensures clipping == old(clipping) && blendMode == old(blendMode)
    {
      scalingQuality := quality;
      if hasTexture {
        CreateTexture(newTexture);
      }
    }

    /** Uploads the pixels to the texture; `false` when there is no texture. */
    method UpdateTexture() returns (updated: bool)
      requires Valid()
      modifies this
      ensures Valid() && updated == hasTexture
      ensures calls == old(calls) + if updated then [UpdateNativeTexture(texture.value, Wrap32(width * 4))] else []
      ensures hasTexture == old(hasTexture) && texture == old(texture) && renderer == old(renderer)
      ensures pixels == old(pixels) && width == old(width) && height == old(height)
      ensures clipping == old(clipping) && scalingQuality == old(scalingQuality) && blendMode == old(blendMode)
    {
      if !hasTexture {
        return false;
      }
      calls := calls + [UpdateNativeTexture(texture.value, Wrap32(width * 4))];
      return true;
    }
  }

  /** Inside a valid canvas, different pixels have different `GetIndex` values. */
  lemma GetIndexInjective(c: Canvas, x: int32, y: int32, x': int32, y': int32)
    requires c.Valid()
    requires 0 <= x < c.width && 0 <= y < c.height && 0 <= x' < c.width && 0 <= y' < c.height
    requires c.GetIndex(x, y) == c.GetIndex(x', y')
    ensures x == x' && y == y'
  {
    IndexInjective(c.width, x, y, x', y');
  }
}
