/**
 * Render-target management shared by the image effects: make sure a
 * texture with the requested properties exists, replacing a mismatching
 * one, and release a texture.
 *
 * The C# methods take the texture `ref`; here they take the old reference
 * and return the new one, which the caller stores back.
 */
module ImageEffectBase {
  import opened RenderTextures

  /**
   * The eight properties `EnsureRenderTexture` compares: size, format,
   * filter mode, random write, wrap mode, anti-aliasing and mipmaps.
   * The depth bits are not compared.
   */
  predicate Matches(have: Descriptor, want: Descriptor): (r: bool)
    ensures r <==> have.(depthBits := want.depthBits) == want
  {
    && have.width == want.width
    && have.height == want.height
    && have.format == want.format
    && have.filterMode == want.filterMode
    && have.randomWrite == want.randomWrite
    && have.wrapMode == want.wrapMode
    && have.antiAliasing == want.antiAliasing
    && have.useMipmap == want.useMipmap
  }

  /** The texture `EnsureRenderTexture` leaves behind, and whether it made a new one. */
  datatype Ensured = Ensured(texture: Descriptor, created: bool)

  /**
   * `EnsureRenderTexture` on descriptors: a present texture that matches is
   * kept; a missing or mismatching one is replaced by a new texture with
   * exactly the requested properties.
   */
  function EnsureDescriptor(current: Option<Descriptor>, want: Descriptor): (r: Ensured)
    ensures Matches(r.texture, want)
    ensures r.created <==> current.None? || !Matches(current.value, want)
    ensures !r.created ==> current == Some(r.texture)
    ensures r.created ==> r.texture == want
  {
    if current.Some? && Matches(current.value, want) then Ensured(current.value, false)
    else Ensured(want, true)
  }

  /** Ensuring twice with the same request creates nothing the second time and keeps the texture. */
  lemma EnsureIsIdempotent(current: Option<Descriptor>, want: Descriptor)
    ensures var first := EnsureDescriptor(current, want);
            EnsureDescriptor(Some(first.texture), want) == Ensured(first.texture, false)
  {
  }

  /** A texture that differs from the request only in its depth bits is kept as it is. */
  lemma DepthBitsAreNotCompared(have: Descriptor, want: Descriptor)
    requires have == want.(depthBits := have.depthBits)
    ensures EnsureDescriptor(Some(have), want) == Ensured(have, false)
  {
  }

  /**
   * Makes sure `rt` is a created texture with the requested properties.
   * Returns the texture to store back into `rt`, and whether it is new.
   * A mismatching texture is released first.
   */
  method EnsureRenderTexture(rt: RenderTexture?, width: int, height: int, format: RenderTextureFormat,
                             filterMode: FilterMode, wrapMode: TextureWrapMode := Clamp,
                             randomWrite: bool := false, useMipmap: bool := false,
                             depthBits: int := 0, antiAliasing: int := 1)
    returns (rt': RenderTexture, created: bool)
    modifies rt
    ensures var want := Descriptor(width, height, format, filterMode, wrapMode, randomWrite,
                                   useMipmap, depthBits, antiAliasing);
            var outcome := EnsureDescriptor(DescriptorOf(rt), want);
            rt'.Properties() == outcome.texture && created == outcome.created
    ensures !created ==> rt' == rt && unchanged(rt)
    ensures created ==> fresh(rt') && rt'.state == Created
    ensures created && rt != null ==> rt.state == Released
  {
    ghost var want := Descriptor(width, height, format, filterMode, wrapMode, randomWrite,
                                 useMipmap, depthBits, antiAliasing);
    ghost var outcome := EnsureDescriptor(DescriptorOf(rt), want);
    var current := rt;
    if current != null && (current.width != width || current.height != height || current.format != format
                           || current.filterMode != filterMode || current.enableRandomWrite != randomWrite
                           || current.wrapMode != wrapMode || current.antiAliasing != antiAliasing
                           || current.useMipMap != useMipmap) {
      assert outcome.created;
      current.Release();
      current := null;
    }

    if current == null {
      assert outcome == Ensured(want, true);
      var texture := CreateRenderTexture(width, height, format, filterMode, wrapMode, randomWrite,
                                         useMipmap, depthBits, antiAliasing);
      return texture, true;
    }

    assert Matches(current.Properties(), want);
    assert outcome == Ensured(current.Properties(), false);
    return current, false;
  }

  /** The creating half of `EnsureRenderTexture`: construct, set the remaining properties, `Create`. */
  method CreateRenderTexture(width: int, height: int, format: RenderTextureFormat, filterMode: FilterMode,
                             wrapMode: TextureWrapMode, randomWrite: bool, useMipmap: bool,
                             depthBits: int, antiAliasing: int)
    returns (texture: RenderTexture)
    ensures fresh(texture) && texture.state == Created
    ensures texture.Properties() == Descriptor(width, height, format, filterMode, wrapMode, randomWrite,
                                               useMipmap, depthBits, antiAliasing)
  {
    texture := new RenderTexture(width, height, depthBits, format, antiAliasing, useMipmap, filterMode,
                                 randomWrite, wrapMode);
    texture.Create();
  }

  /** Returns `rt` to the engine's pool if it is present; the reference afterwards is null. */
  method ReleaseRenderTexture(rt: RenderTexture?) returns (rt': RenderTexture?)
    modifies rt
    ensures rt' == null
    ensures rt != null ==> rt.state == ReturnedToPool
  {
    if rt != null {
      rt.ReleaseTemporary();
    }
    return null;
  }
}
