/**
 * Texture format selection: the pixel array the texture is created from
 * decides its element type, and the channel count decides between the
 * three- and four-channel formats. The texture-image calls are modelled as
 * the records they would pass to the driver.
 */
module Textures {
  import opened Gl
  import Wrappers

  /** The typed-array kinds a texture accepts. */
  datatype ArrayKind = Float32 | Uint8Clamped | Uint8 | Uint16

  /** Pixel data: a typed array of some length, or an image bitmap. */
  datatype PixelData = TypedArray(kind: ArrayKind, length: nat) | ImageBitmap

  /** The array constructor passed in for allocating pixels when no data is given. */
  datatype ArrayConstructor = TypedArrayConstructor(kind: ArrayKind) | ImageBitmapConstructor

  /** An exception: `new ImageBitmap(n)` is an illegal constructor call. */
  datatype TextureError = TypeError

  /** GL element type, sized internal format and pixel data format. */
  datatype TextureFormat = TextureFormat(elementType: GlEnum, internalFormat: GlEnum, dataFormat: GlEnum)

  /** The field initialisers: FLOAT data of unsized RGBA. */
  const DefaultFormat := TextureFormat(FLOAT, RGBA, RGBA)

  /** The GL element type that matches a typed-array kind. */
  function ElementTypeOf(kind: ArrayKind): GlEnum {
    match kind
    case Uint8 | Uint8Clamped => UNSIGNED_BYTE
    case Uint16 => UNSIGNED_SHORT
    case Float32 => FLOAT
  }

  /** The number of channels a format denotes (0 for a non-format value). */
  function FormatChannels(f: GlEnum): nat {
    match f
    case RGBA | RGBA_INTEGER | RGBA8 | RGBA16UI | RGBA32F => 4
    case RGB | RGB_INTEGER | RGB8 | RGB16UI | RGB32F => 3
    case _ => 0
  }

  /**
   * The sized (internal format, data format, element type) combinations
   * this model can select, each of which is a combination the WebGL2
   * texImage2D table accepts.
   */
  predicate IsSizedCombination(f: TextureFormat) {
    f == TextureFormat(UNSIGNED_BYTE, RGBA8, RGBA) || f == TextureFormat(UNSIGNED_BYTE, RGB8, RGB) ||
    f == TextureFormat(UNSIGNED_SHORT, RGBA16UI, RGBA_INTEGER) || f == TextureFormat(UNSIGNED_SHORT, RGB16UI, RGB_INTEGER) ||
    f == TextureFormat(FLOAT, RGBA32F, RGBA) || f == TextureFormat(FLOAT, RGB32F, RGB)
  }

  /** The format chosen for the pixel data and channel count. */
  function SelectFormat(pixels: PixelData, channels: int): (f: TextureFormat)
    ensures pixels.ImageBitmap? ==> f == DefaultFormat
    ensures pixels.TypedArray? ==>
      IsSizedCombination(f) && f.elementType == ElementTypeOf(pixels.kind) &&
      FormatChannels(f.internalFormat) == FormatChannels(f.dataFormat) == (if channels == 4 then 4 else 3)
  {
    match pixels
    case ImageBitmap => DefaultFormat
    case TypedArray(kind, _) =>
      var four := channels == 4;
      match kind
      case Uint8 | Uint8Clamped =>
        TextureFormat(UNSIGNED_BYTE, if four then RGBA8 else RGB8, if four then RGBA else RGB)
      case Uint16 =>
        TextureFormat(UNSIGNED_SHORT, if four then RGBA16UI else RGB16UI, if four then RGBA_INTEGER else RGB_INTEGER)
      case Float32 =>
        TextureFormat(FLOAT, if four then RGBA32F else RGB32F, if four then RGBA else RGB)
  }

  /** For typed data the element type and the channel count determine each other with the format: selection is one-to-one. */
  lemma SelectFormatIsInjective(p: PixelData, q: PixelData, c: int, d: int)
    requires p.TypedArray? && q.TypedArray?
    requires SelectFormat(p, c) == SelectFormat(q, d)
    ensures ElementTypeOf(p.kind) == ElementTypeOf(q.kind)
    ensures (c == 4) == (d == 4)
  {
  }

  /** Every sized combination is selected by some typed array and channel count. */
  lemma EverySizedCombinationIsSelected(f: TextureFormat)
    requires IsSizedCombination(f)
    ensures exists kind: ArrayKind, channels: int :: SelectFormat(TypedArray(kind, 0), channels) == f
  {
    var kind := if f.elementType == UNSIGNED_BYTE then Uint8
      else if f.elementType == UNSIGNED_SHORT then Uint16 else Float32;
    var channels := FormatChannels(f.internalFormat);
    assert SelectFormat(TypedArray(kind, 0), channels) == f;
  }

  /** The stored texture description. */
  datatype Texture2D = Texture2D(width: nat, height: nat, format: TextureFormat, border: nat, level: nat)

  /** Width, height and border of a texImage2D call, which a bitmap source leaves out. */
  datatype Extent = Extent(width: nat, height: nat, border: nat)

  /** The initial texImage2D call. */
  datatype TexImage = TexImage(level: nat, internalFormat: GlEnum, extent: Wrappers.Option<Extent>,
                               dataFormat: GlEnum, elementType: GlEnum, pixels: PixelData)

  /** A sub-image rectangle, which the short texSubImage2D form leaves out. */
  datatype Rect = Rect(width: nat, height: nat)

  /** A texSubImage2D call. */
  datatype TexSubImage = TexSubImage(level: nat, x: nat, y: nat, size: Wrappers.Option<Rect>,
                                     dataFormat: GlEnum, elementType: GlEnum, pixels: PixelData)

  datatype Created = Created(texture: Texture2D, image: TexImage)

  /** The pixels the constructor uploads: the data given, else a new array of width * height * channels elements. */
  function InitialPixels(width: nat, height: nat, channels: nat, ctor: ArrayConstructor,
                         data: Wrappers.Option<PixelData>): (r: Wrappers.Result<PixelData, TextureError>)
    ensures data.Some? ==> r == Wrappers.Success(data.value)
    ensures data.None? && ctor.TypedArrayConstructor? ==>
      r == Wrappers.Success(TypedArray(ctor.kind, width * height * channels))
    ensures r.Failure? <==> data.None? && ctor.ImageBitmapConstructor?
  {
    if data.Some? then Wrappers.Success(data.value)
    else match ctor
      case TypedArrayConstructor(kind) => Wrappers.Success(TypedArray(kind, width * height * channels))
      case ImageBitmapConstructor => Wrappers.Failure(TypeError)
  }

  /** `new Texture2D(width, height, channels, type, data)`. */
  function NewTexture2D(width: nat, height: nat, channels: nat, ctor: ArrayConstructor,
                        data: Wrappers.Option<PixelData>): (r: Wrappers.Result<Created, TextureError>)
    ensures r.Failure? <==> data.None? && ctor.ImageBitmapConstructor?
    ensures r.Success? ==>
      var t := r.value.texture;
      var pixels := InitialPixels(width, height, channels, ctor, data).value;
      && t.width == width && t.height == height && t.level == 0 && t.border == 0
      && t.format == SelectFormat(pixels, channels)
      && r.value.image.pixels == pixels && r.value.image.level == 0
      && r.value.image.internalFormat == t.format.internalFormat
      && r.value.image.dataFormat == t.format.dataFormat && r.value.image.elementType == t.format.elementType
      && (r.value.image.extent.Some? <==> pixels.TypedArray?)
      && (pixels.TypedArray? ==> r.value.image.extent.value == Extent(width, height, 0))
  {
    match InitialPixels(width, height, channels, ctor, data)
    case Failure(e) => Wrappers.Failure(e)
    case Success(pixels) =>
      var t := Texture2D(width, height, SelectFormat(pixels, channels), 0, 0);
      var extent := if pixels.ImageBitmap? then Wrappers.None else Wrappers.Some(Extent(t.width, t.height, t.border));
      Wrappers.Success(Created(t, TexImage(t.level, t.format.internalFormat, extent,
                                           t.format.dataFormat, t.format.elementType, pixels)))
  }

  /** `uploadSubRectangle`: replace the given rectangle with new pixels in the stored format. */
  function UploadSubRectangle(t: Texture2D, pixels: PixelData, x: nat, y: nat, width: nat, height: nat): (r: TexSubImage)
    ensures r.level == t.level && r.x == x && r.y == y && r.size == Wrappers.Some(Rect(width, height))
    ensures r.dataFormat == t.format.dataFormat && r.elementType == t.format.elementType && r.pixels == pixels
  {
    TexSubImage(t.level, x, y, Wrappers.Some(Rect(width, height)), t.format.dataFormat, t.format.elementType, pixels)
  }

  /** `upload`: replace the whole image; a bitmap source gives no explicit extent. */
  function Upload(t: Texture2D, pixels: PixelData): (r: TexSubImage)
    ensures r.x == 0 && r.y == 0 && r.level == t.level && r.pixels == pixels
    ensures r.dataFormat == t.format.dataFormat && r.elementType == t.format.elementType
    ensures pixels.ImageBitmap? <==> r.size.None?
  {
    if pixels.ImageBitmap? then TexSubImage(t.level, 0, 0, Wrappers.None, t.format.dataFormat, t.format.elementType, pixels)
    else TexSubImage(t.level, 0, 0, Wrappers.Some(Rect(t.width, t.height)), t.format.dataFormat, t.format.elementType, pixels)
  }

  /** A full upload of typed data is the sub-rectangle upload of (0, 0, width, height), at level 0 for a constructed texture. */
  lemma UploadCoversWholeTexture(width: nat, height: nat, channels: nat, ctor: ArrayConstructor,
                                 data: Wrappers.Option<PixelData>, pixels: PixelData)
    requires NewTexture2D(width, height, channels, ctor, data).Success?
    requires pixels.TypedArray?
    ensures var t := NewTexture2D(width, height, channels, ctor, data).value.texture;
      Upload(t, pixels) == UploadSubRectangle(t, pixels, 0, 0, width, height) && Upload(t, pixels).level == 0
  {
  }
}
