/**
 * The engine's render textures, reduced to what the image effects look at:
 * the properties that describe a texture, and whether its GPU resource has
 * been created or released. Pixel contents live on the GPU and are not
 * modelled.
 */
module RenderTextures {

  datatype RenderTextureFormat = ARGB32 | ARGBHalf | ARGBFloat | RFloat | RHalf | Depth
  datatype FilterMode = Point | Bilinear | Trilinear
  datatype TextureWrapMode = Repeat | Clamp | Mirror | MirrorOnce

  /** Where a texture's GPU resource stands. */
  datatype GpuState =
    | NotCreated         // constructed, `Create` not yet called
    | Created            // `Create` called
    | Released           // `Release` called
    | ReturnedToPool     // handed to `RenderTexture.ReleaseTemporary`

  /** Every property of a render texture that `EnsureRenderTexture` sets or compares. */
  datatype Descriptor = Descriptor(
    width: int,
    height: int,
    format: RenderTextureFormat,
    filterMode: FilterMode,
    wrapMode: TextureWrapMode,
    randomWrite: bool,
    useMipmap: bool,
    depthBits: int,
    antiAliasing: int)

  /**
   * A render texture. Its properties are fixed once it is made: the
   * properties `EnsureRenderTexture` assigns between construction and
   * `Create` are constructor arguments here. Only the GPU state changes.
   */
  class RenderTexture {
    const width: int
    const height: int
    const depth: int
    const format: RenderTextureFormat
    const antiAliasing: int
    const useMipMap: bool
    const filterMode: FilterMode
    const enableRandomWrite: bool
    const wrapMode: TextureWrapMode
    var state: GpuState

    /**
     * `new RenderTexture(width, height, depth, format, RenderTextureReadWrite.Default)`
     * followed by assignments of the other five properties.
     */
    constructor (width: int, height: int, depth: int, format: RenderTextureFormat,
                 antiAliasing: int, useMipMap: bool, filterMode: FilterMode,
                 enableRandomWrite: bool, wrapMode: TextureWrapMode)
      ensures Properties() == Descriptor(width, height, format, filterMode, wrapMode, enableRandomWrite,
                                         useMipMap, depth, antiAliasing)
      ensures state == NotCreated
    {
      this.width := width;
      this.height := height;
      this.depth := depth;
      this.format := format;
      this.antiAliasing := antiAliasing;
      this.useMipMap := useMipMap;
      this.filterMode := filterMode;
      this.enableRandomWrite := enableRandomWrite;
      this.wrapMode := wrapMode;
      state := NotCreated;
    }

    /** The texture's properties as one value. */
    function Properties(): Descriptor {
      Descriptor(width, height, format, filterMode, wrapMode, enableRandomWrite, useMipMap, depth, antiAliasing)
    }

    /** Allocates the GPU resource. */
    method Create()
      modifies this`state
      ensures state == Created
    {
      state := Created;
    }

    /** Frees the GPU resource; the object keeps its properties. */
    method Release()
      modifies this`state
      ensures state == Released
    {
      state := Released;
    }

    /** `RenderTexture.ReleaseTemporary(this)`. */
    method ReleaseTemporary()
      modifies this`state
      ensures state == ReturnedToPool
    {
      state := ReturnedToPool;
    }
  }

  /** A handle on one of a render texture's buffers. */
  datatype RenderBuffer =
    | ColorBuffer(texture: RenderTexture)
    | DepthBuffer(texture: RenderTexture)

  /** The descriptor of a possibly missing texture. */
  function DescriptorOf(rt: RenderTexture?): Option<Descriptor> {
    if rt == null then None else Some(rt.Properties())
  }

  datatype Option<T> = None | Some(value: T)
}
