# Volumetric clouds: verified model of the texture, sequence and history-buffer logic

This project models four pieces of a Unity volumetric-clouds renderer in Dafny and proves what they promise.

- **Texture split** (`texture_split.dfy`, module `TextureSplit`). A 2D noise texture holds `tiling`
  square `side x side` tiles side by side. `SplitTiledTexture` turns it into a `side x side x tiling`
  3D texture. `ReorderPixels` moves every pixel to its new place in a fresh array. The model proves that
  the index map stays in range, is injective and has an inverse. It also proves that the new pixel
  array is a permutation of the old one and equals a reference sequence defined by the inverse map. A
  square image is copied unchanged. The two error exits are modelled as `Result` values: the shorter
  side does not divide the longer one, or the image is taller than it is wide.
- **Halton sequence** (`low_discrepancy_sequence.dfy`, module `LowDiscrepancy`). `GetHaltonValue` is
  the digit loop of the radical inverse. It is proved against a recursive definition, and that
  definition is proved equal to an independent one: the sum `d_k * b^-(k+1)` over the base-`b` digits
  of the index. Every value lies in `[0, 1)`, and an index below the base gives `index / base`. The
  `LowDiscrepancySequence` class is the cursor. It starts at 0 in base 3, and each `GetNextValue`
  returns the value at the cursor and advances the cursor like a C# `int`.
- **Render-target management** (`image_effect_base.dfy`, module `ImageEffectBase`, over the texture
  class in `render_texture.dfy`, module `RenderTextures`).
  - `EnsureRenderTexture` keeps a texture that matches the request in the eight compared properties.
    Otherwise it releases the texture and makes a new one with exactly the requested properties.
  - It reports whether it made one. The decision is also stated on values (`EnsureDescriptor`).
  - The depth bits are never compared, and ensuring twice creates nothing the second time.
  - `ReleaseRenderTexture` returns a texture to the pool and clears the reference.
- **History double buffer** (`clouds_history_effect.dfy`, module `CloudsHistory`). The
  `CloudsHistoryEffect` class holds the two history buffers, the raymarch buffers, the history index,
  the first-frame flag, the previous view matrix and its Halton cursor.
  - `PerformEffect` brings all four buffers to the downscaled size and points the two raymarch colour
    targets at the raymarch buffers.
  - It flips the history index, raymarches, and on a first frame seeds the history with a copy.
  - It blends from the indexed history buffer into the other one, and lights the scene from the
    buffer it just wrote.
  - The shader work is returned as a list of `GpuEvent`s. Each names the textures its pass reads:
    the textures bound to the material (the raymarched and average-depth buffers for the blend) and
    the blit source. It also names the texture the pass writes. The class invariant records which
    buffer the last frame blended into.
  - From that, `PerformEffect` and `ConsecutiveFrames` prove the ping-pong property: the next frame
    reads the buffer the previous frame wrote, unless a buffer had to be recreated.

The C# methods that take a `ref RenderTexture` (`EnsureRenderTexture`, `ReleaseRenderTexture`) take the
reference here and return the new one for the caller to store back. The C# `_isFirstFrame |=
EnsureRenderTexture(...)` lines evaluate all four calls. The model calls all four and combines their
results the same way. `PerformEffect`'s work is split over several methods, each covering a contiguous
run of source lines: `EnsureBuffers`, `SetRaymarchColorBuffers`, `Raymarch` and `RenderFrame`.
`PerformEffect` calls them in the source's order. The "was anything created" flag is handed from the
ensuring half to `RenderFrame`. There it is ORed with the first-frame flag into a local `seeded`,
which decides the seeding copy and the blend's view, as the source's `_isFirstFrame |= ...` does. The
field ends `false` either way.

All paths below are relative to the repository root.

## Model

| member | source | states |
|---|---|---|
| TextureSplit.SplitTiledTexture | Assets/VolumetricCloudsTutorial/CloudDensity/NoiseTextures/TextureSplit.cs:75-98 | Fails with `SideDoesNotDivide(side, longSide)` exactly when the shorter side does not divide the longer one. Otherwise fails with `NotTiledAlongX` exactly when width < height. A result exists iff the side divides and width >= height. The result is `side x side x tiling` with `side = min`, `tiling = max / side`, the input's format and the requested mipmap flag. Its pixels are the reordered input and a permutation of it. |
| TextureSplit.ReorderPixels | Assets/VolumetricCloudsTutorial/CloudDensity/NoiseTextures/TextureSplit.cs:108-142 | Refuses exactly when the image is not tiled along x. Otherwise returns a newly allocated array of the input's length in which every input pixel `i` sits at `SplitIndex(i)`, an in-range slot. The whole array equals `Reordered(input)`. |
| TextureSplit.TileCount | Assets/VolumetricCloudsTutorial/CloudDensity/NoiseTextures/TextureSplit.cs:80-82 | When the shorter side divides the longer one, `width * height == side * side * tiling`, so the pixel array fits the volume exactly. |
| TextureSplit.SplitIndexDigits | Assets/VolumetricCloudsTutorial/CloudDensity/NoiseTextures/TextureSplit.cs:120-136 | Image pixel `index` is column `t` of tile `w` in row `y`, with `t, y < side` and `w < tiling`, and it goes to `t + y * side + w * side^2`. |
| TextureSplit.SplitIndexInRange | Assets/VolumetricCloudsTutorial/CloudDensity/NoiseTextures/TextureSplit.cs:121-138 | Every image pixel's new index lies in `[0, side * side * tiling)`, so the store into `ordered` is in bounds. |
| TextureSplit.TiledOfSplit | Assets/VolumetricCloudsTutorial/CloudDensity/NoiseTextures/TextureSplit.cs:121-136 | Undoing the split with the inverse map `TiledIndex` gives back every pixel's original index. |
| TextureSplit.VolumeDigits | Assets/VolumetricCloudsTutorial/CloudDensity/NoiseTextures/TextureSplit.cs:133-136 | A volume index is `x + y * side + z * side^2` for its digits `x, y < side` and `z < tiling`. |
| TextureSplit.SplitOfDigits | Assets/VolumetricCloudsTutorial/CloudDensity/NoiseTextures/TextureSplit.cs:121-136 | The image pixel at column `z * side + x` of row `y` lies in the image and lands on texel `(x, y, z)`. |
| TextureSplit.SplitOfTiled | Assets/VolumetricCloudsTutorial/CloudDensity/NoiseTextures/TextureSplit.cs:121-136 | Every texel comes from an in-range image pixel, and the split sends that pixel back to it: the index map is onto. |
| TextureSplit.SplitIndexInjective | Assets/VolumetricCloudsTutorial/CloudDensity/NoiseTextures/TextureSplit.cs:116-139 | Two image pixels with the same new index are the same pixel, so no slot of `ordered` is written twice. |
| TextureSplit.SplitIndexOfSquare | Assets/VolumetricCloudsTutorial/CloudDensity/NoiseTextures/TextureSplit.cs:121-136 | With one tile the index map is the identity. |
| TextureSplit.ReorderedPlacesEveryPixel | Assets/VolumetricCloudsTutorial/CloudDensity/NoiseTextures/TextureSplit.cs:118-139 | The reordered sequence has the input's length, and it holds input pixel `i` at `SplitIndex(i)`. |
| TextureSplit.PermutedMultiset | Assets/VolumetricCloudsTutorial/CloudDensity/NoiseTextures/TextureSplit.cs:115-139 | Two sequences related by an injective in-range index map hold the same multiset of elements. |
| TextureSplit.ReorderedIsPermutation | Assets/VolumetricCloudsTutorial/CloudDensity/NoiseTextures/TextureSplit.cs:115-139 | The reordered pixels are a permutation of the input pixels. |
| TextureSplit.ReorderedSquareIsIdentity | Assets/VolumetricCloudsTutorial/CloudDensity/NoiseTextures/TextureSplit.cs:118-139 | A square image (tiling 1) comes out unchanged. |
| LowDiscrepancy.GetHaltonValue | Assets/VolumetricCloudsTutorial/ImageEffects/LowDiscrepancySequence.cs:29-41 | The loop computes the radical inverse of the index in the given base (0 for indices <= 0). The result lies in `[0, 1)` and is `index / base` for `0 < index < base`. |
| LowDiscrepancy.Increment | Assets/VolumetricCloudsTutorial/ImageEffects/LowDiscrepancySequence.cs:19 | `x++` on a C# `int` is `x + 1` in two's complement modulo `2^32`, and exactly `x + 1` below the largest `int`. |
| LowDiscrepancy.LowDiscrepancySequence.constructor | Assets/VolumetricCloudsTutorial/ImageEffects/LowDiscrepancySequence.cs:13-14 | A new sequence starts at index 0 in base 3. |
| LowDiscrepancy.LowDiscrepancySequence.GetNextValue | Assets/VolumetricCloudsTutorial/ImageEffects/LowDiscrepancySequence.cs:16-21 | Returns the Halton value at the cursor. The cursor moves one on, wrapping from the largest `int` to the smallest, and the base is unchanged. |
| LowDiscrepancy.FirstDefaultValues | Assets/VolumetricCloudsTutorial/ImageEffects/LowDiscrepancySequence.cs:13-21 | A new sequence yields 0, 1/3, 2/3, 1/9 on its first four calls. |
| LowDiscrepancy.HaltonValueStep | Assets/VolumetricCloudsTutorial/ImageEffects/LowDiscrepancySequence.cs:33-38 | One loop turn: the value at `n` is the lowest digit plus the value at `n / b`, shifted one place, and `n / b < n`, so the loop ends. |
| LowDiscrepancy.DigitsSpellIndex | Assets/VolumetricCloudsTutorial/ImageEffects/LowDiscrepancySequence.cs:33-39 | The digits the loop peels off are base-`b` digits (each in `[0, b)`), the highest is not 0, and together they spell the index. |
| LowDiscrepancy.RadicalInverseIsDigitSum | Assets/VolumetricCloudsTutorial/ImageEffects/LowDiscrepancySequence.cs:31-40 | The loop's value equals the sum of `d_k * b^-(k+1)` over the index's digits, least significant first. |
| LowDiscrepancy.RadicalInverseInUnitInterval | Assets/VolumetricCloudsTutorial/ImageEffects/LowDiscrepancySequence.cs:29-41 | For every index and base >= 2 the value lies in `[0, 1)`, within the class's documented range `[0,1]`. |
| LowDiscrepancy.HaltonValueInUnitInterval | Assets/VolumetricCloudsTutorial/ImageEffects/LowDiscrepancySequence.cs:29-41 | The same bound for every C# index, including indices <= 0, which give 0. |
| LowDiscrepancy.HaltonValueOfOneDigit | Assets/VolumetricCloudsTutorial/ImageEffects/LowDiscrepancySequence.cs:33-39 | An index below the base takes one turn and gives `index / base`. |
| RenderTextures.RenderTexture.constructor | Assets/VolumetricCloudsTutorial/ImageEffects/Base/ImageEffectBase.cs:36-41 | The new texture has exactly the given size, depth, format, anti-aliasing, mipmap, filter, random-write and wrap properties, and no GPU resource yet. |
| RenderTextures.RenderTexture.Create | Assets/VolumetricCloudsTutorial/ImageEffects/Base/ImageEffectBase.cs:42 | The texture's GPU resource is created. |
| RenderTextures.RenderTexture.Release | Assets/VolumetricCloudsTutorial/ImageEffects/Base/ImageEffectBase.cs:30 | The texture's GPU resource is released. |
| RenderTextures.RenderTexture.ReleaseTemporary | Assets/VolumetricCloudsTutorial/ImageEffects/Base/ImageEffectBase.cs:57 | The texture is handed back to the pool. |
| ImageEffectBase.Matches | Assets/VolumetricCloudsTutorial/ImageEffects/Base/ImageEffectBase.cs:28 | Two descriptors match iff they are equal once the depth bits are disregarded. |
| ImageEffectBase.EnsureDescriptor | Assets/VolumetricCloudsTutorial/ImageEffects/Base/ImageEffectBase.cs:26-47 | The texture left behind matches the request. A texture is created iff none was present or the present one differs in one of the eight compared properties. A kept texture is the present one, and a created one is exactly the request. |
| ImageEffectBase.EnsureIsIdempotent | Assets/VolumetricCloudsTutorial/ImageEffects/Base/ImageEffectBase.cs:28-46 | A second call with the same request creates nothing and keeps the texture the first call left. |
| ImageEffectBase.DepthBitsAreNotCompared | Assets/VolumetricCloudsTutorial/ImageEffects/Base/ImageEffectBase.cs:28 | A texture that differs from the request only in its depth bits is kept. |
| ImageEffectBase.EnsureRenderTexture | Assets/VolumetricCloudsTutorial/ImageEffects/Base/ImageEffectBase.cs:26-47 | The returned texture has the properties `EnsureDescriptor` decides, and the flag says whether it is new. A kept texture is the same object, untouched. A new one is fresh and created, and a replaced one has been released. |
| ImageEffectBase.CreateRenderTexture | Assets/VolumetricCloudsTutorial/ImageEffects/Base/ImageEffectBase.cs:36-42 | A fresh, created texture with exactly the requested properties. |
| ImageEffectBase.ReleaseRenderTexture | Assets/VolumetricCloudsTutorial/ImageEffects/Base/ImageEffectBase.cs:53-60 | The reference afterwards is null. A present texture is returned to the pool, and a missing one changes nothing. |
| CloudsHistory.ShiftRightRoundsDown | Assets/VolumetricCloudsTutorial/ImageEffects/CloudsHistoryEffect.cs:35-36 | `r = x >> count` satisfies `r * 2^(count mod 32) <= x < (r + 1) * 2^(count mod 32)`: the count is masked to 0-31 and an arithmetic shift rounds down. |
| CloudsHistory.DownscaledSize | Assets/VolumetricCloudsTutorial/ImageEffects/CloudsHistoryEffect.cs:35-36 | For downscaling 0 to 2, `x >> d` is `x` divided by `2^d` rounded down (`x`, `x / 2`, `x / 4`), bracketed by the neighbouring multiples of `2^d`. |
| CloudsHistory.CloudsHistoryEffect.constructor | Assets/VolumetricCloudsTutorial/ImageEffects/CloudsHistoryEffect.cs:103-119 | No buffers yet, first frame set, history index 0, zero view matrix, a new base-3 sequence at index 0, and the invariant established. |
| CloudsHistory.CloudsHistoryEffect.Awake | Assets/VolumetricCloudsTutorial/ImageEffects/CloudsHistoryEffect.cs:91-95 | The next frame is a first frame; nothing else changes. |
| CloudsHistory.CloudsHistoryEffect.OnEnable | Assets/VolumetricCloudsTutorial/ImageEffects/CloudsHistoryEffect.cs:97-101 | The next frame is a first frame; nothing else changes. |
| CloudsHistory.CloudsHistoryEffect.EnsureHistoryBuffer | Assets/VolumetricCloudsTutorial/ImageEffects/CloudsHistoryEffect.cs:42-43 | History buffer `i` is ensured in place in the array as an ARGBFloat, bilinear texture of the working size, and the other buffer is untouched. A kept buffer is the same object. A replaced one has been released, and the flag says whether a buffer was made. A newly made buffer holds no history, so the record of the last blend target is cleared. |
| CloudsHistory.CloudsHistoryEffect.EnsureRaymarchedBuffer | Assets/VolumetricCloudsTutorial/ImageEffects/CloudsHistoryEffect.cs:44 | The raymarched buffer is ensured as an ARGBFloat, bilinear texture of the working size. A kept buffer is the same object, a replaced one has been released, and the flag says whether a buffer was made. |
| CloudsHistory.CloudsHistoryEffect.EnsureAvgDepthBuffer | Assets/VolumetricCloudsTutorial/ImageEffects/CloudsHistoryEffect.cs:45 | The average-depth buffer is ensured as an RFloat, bilinear texture of the working size. A kept buffer is the same object, a replaced one has been released, and the flag says whether a buffer was made. |
| CloudsHistory.CloudsHistoryEffect.EnsureHistoryBuffers | Assets/VolumetricCloudsTutorial/ImageEffects/CloudsHistoryEffect.cs:38-43 | A missing pair array is allocated with two empty slots, then both history buffers are ensured: each kept one is the same object and each replaced one has been released. The result is true iff either did not match. A recreation clears the record of the last blend target, and nothing else changes. |
| CloudsHistory.CloudsHistoryEffect.EnsureRaymarchBuffers | Assets/VolumetricCloudsTutorial/ImageEffects/CloudsHistoryEffect.cs:44-45 | Both raymarch buffers are ensured: each kept one is the same object and each replaced one has been released. The result is true iff either did not match. |
| CloudsHistory.CloudsHistoryEffect.EnsureBuffers | Assets/VolumetricCloudsTutorial/ImageEffects/CloudsHistoryEffect.cs:38-45 | All four buffers exist and match their requests, each as `EnsureDescriptor` of its previous state. Each kept buffer is the same object and each replaced one has been released. The result is true iff they did not all match before. A recreated history buffer clears the record of the last blend target. |
| CloudsHistory.CloudsHistoryEffect.SetRaymarchColorBuffers | Assets/VolumetricCloudsTutorial/ImageEffects/CloudsHistoryEffect.cs:46-54 | The colour targets are exactly the raymarched buffer's and the average-depth buffer's colour buffers. An existing two-element array is reused. |
| CloudsHistory.CloudsHistoryEffect.PrepareFrame | Assets/VolumetricCloudsTutorial/ImageEffects/CloudsHistoryEffect.cs:38-54 | After the ensuring half all four buffers match, each kept one being the same object and each replaced one released, and the colour targets are set. The result is true iff anything was recreated. The index, flag, view and sequence are unchanged. |
| CloudsHistory.CloudsHistoryEffect.Raymarch | Assets/VolumetricCloudsTutorial/ImageEffects/CloudsHistoryEffect.cs:58-66 | Pass 0 sets `DOWNSAMPLE_1` on iff downscaling is 1 and `DOWNSAMPLE_2` on iff it is 2. It sets the raymarch offset to the Halton value at the cursor, advancing the cursor. It raymarches into the two colour targets with the raymarched buffer's depth. |
| CloudsHistory.CloudsHistoryEffect.RenderFrame | Assets/VolumetricCloudsTutorial/ImageEffects/CloudsHistoryEffect.cs:56-88 | Flips the history index. On a first frame or after a recreation it copies the raymarch result into the indexed buffer. It blends from the indexed buffer into the other one, reading the raymarched and average-depth buffers, with the current view when seeding and the previous view otherwise. It lights from the blended buffer. The read and written buffers differ, and the buffer read is the one the previous frame blended into. Afterwards the view is stored and the first-frame flag is cleared. |
| CloudsHistory.CloudsHistoryEffect.PerformEffect | Assets/VolumetricCloudsTutorial/ImageEffects/CloudsHistoryEffect.cs:33-89 | A whole frame. The buffers have the working size `source >> downscaling` and the pair array has length 2. Each kept buffer is the same object and each replaced one has been released (`EnsuredAll` of the buffers held before). The index toggles within {0, 1}, and the read and written history buffers differ. A frame without a recreation reads the buffer the previous frame wrote. The first-frame flag ends false and the stored view is the camera's. The full event list is stated, with seeding iff the frame was a first frame or a buffer was recreated, and the blend reads the raymarched and average-depth buffers. |
| CloudsHistory.ConsecutiveFrames | Assets/VolumetricCloudsTutorial/ImageEffects/CloudsHistoryEffect.cs:56-88 | Of two frames in a row from one source, the second does not seed. It blends from the buffer the first blended into, into the buffer the first read, reprojecting with the first frame's view. It lights from the buffer it wrote. |

## Left out

- TextureSplit.SplitTiledTexture: requires a well-formed texture with a positive width and height. A
  texture of width or height 0 would make `TextureSplit.cs` line 82 throw `DivideByZeroException`; the engine does not
  hand out such textures, and the model does not follow that path.
- Floating point: Halton values, matrices and the blend constant are exact reals or opaque values. IEEE
  single-precision rounding in `GetHaltonValue` is not modelled.
- LowDiscrepancy.GetHaltonValue: requires a base of at least 2. With base 1 the C# loop never ends, and
  with base 0 it divides by zero. A negative base is excluded too: C#'s truncating `%` and `/` then give
  values outside `[0, 1)` (base -3 at index 5 gives -2/3). `SequenceBase` is a public field, so other
  code could set such a base. The class itself never does.
- RenderTextures.RenderTexture.constructor: the engine's constructor takes size, depth and format, and
  `EnsureRenderTexture` assigns the other five properties before `Create`. The model passes all nine to
  the constructor, and a texture's properties never change afterwards. Nothing else in the modelled code
  changes them.
- Pixel contents of render textures and all shader work: `Graphics.Blit`, `BlitMRT` and the
  material's `SetTexture`/`SetVector`/`SetFloat`/`SetMatrix` calls are reduced to `GpuEvent`s naming the
  textures involved. `SetKeyword` and `BlitMRT` are defined in a file that is not part of this model; they appear only as
  events.
- `GetProjectionExtents`, the raymarched buffer's texel size, `GL.GetGPUProjectionMatrix(...) *
  previousView` and `ln(2) / blendHalfLife` are float math on engine values and are left out. The blend
  event records only which previous view matrix is used.
- `OnRenderImage`, `DrawFullScreenQuad` and the rest of `ImageEffectBase.cs` beyond the two texture
  helpers are engine and GL glue. So are the base-class parts of `Awake` and `OnEnable` (camera lookup,
  depth-texture mode).
- The editor menu items of `TextureSplit.cs`, `GetPixels32`/`SetPixels32`/`Apply` beyond copying the
  pixel array, and asset saving: host-editor I/O.
- `CurlNoise.cs`, `CloudConfiguration.cs`, `PowerRangeDrawer.cs`, `PowerRangeAttribute.cs`,
  `CloudsImageEffect.cs` and `CloudEffectBase.cs`: float noise baking, configuration plumbing, editor
  UI and forwarding to material calls.
- The `[Range(0, 2)]` inspector limit on `_downscaling` is an editor hint. The model accepts any value
  and models `>>` with C#'s masking of the shift count. `DownscaledSize` states the rounding for 0 to 2.
- The ghost `lastBlendTarget` is cleared when a history buffer is recreated, because the recreated
  buffer holds no history. So the ping-pong clause of `PerformEffect` is stated only for frames whose
  buffers all matched.
- The `_historyIndex` comment ("containing the previous frame's history") describes the index after
  the toggle at the top of a frame. Between frames, the latest blend is in the other buffer, and the
  invariant states that.
