/**
 * Per-frame bookkeeping of the raymarched clouds effect with temporal
 * history blending.
 *
 * Each frame raymarches into a downscaled buffer (plus an average-depth
 * buffer), blends it with the history of the previous frames into one of
 * two history buffers, and lights the scene from the blended result. The
 * two history buffers take turns ("ping-pong"): the buffer a frame blends
 * into is the one the next frame reads.
 *
 * Shader work is out of scope: every blit is recorded as a `GpuEvent`
 * naming the textures it reads and writes, and `PerformEffect` returns the
 * frame's events in order.
 */
module CloudsHistory {
  import opened RenderTextures
  import opened ImageEffectBase
  import LowDiscrepancy

  /** A 4x4 matrix, kept opaque: the model only passes matrices along. */
  datatype Matrix4x4 = Matrix4x4(entries: seq<real>)

  /** The value of a `Matrix4x4` field nobody has assigned: sixteen zeros. */
  const ZERO_MATRIX: Matrix4x4 := Matrix4x4(seq(16, _ => 0.0))

  /** What the effect reads from the camera. */
  datatype Camera = Camera(worldToCameraMatrix: Matrix4x4, projectionMatrix: Matrix4x4)

  /** The effect's GPU work, one event per material setting or blit that the bookkeeping decides. */
  datatype GpuEvent =
    | SetKeyword(keyword: string, enabled: bool)
    | SetRaymarchOffset(offset: real)
    // pass 0, into two colour targets at once
    | RaymarchPass(colorTargets: seq<RenderBuffer>, depthTarget: RenderBuffer)
    // a plain copy, no material
    | Copy(from: RenderTexture, to: RenderTexture)
    // pass 1: blend the raymarch result (`raymarched` and `avgDepth`, bound as material textures)
    // with `history` into `target`, reprojecting with `previousView`
    | BlendPass(history: RenderTexture, target: RenderTexture, raymarched: RenderTexture, avgDepth: RenderTexture,
                previousView: Matrix4x4)
    // pass 2: light the clouds in `cloudDensity` and composite them over the scene
    | LightingPass(cloudDensity: RenderTexture, source: RenderTexture, destination: RenderTexture)

  /**
   * The events of one frame. Pass 0 raymarches into the two colour targets
   * with the Halton `offset`; a seeding frame then copies the raymarch
   * result into `read`. Pass 1 blends `read` with the raymarch result into
   * `write`, reprojecting with `view`, and pass 2 lights the scene from `write`.
   */
  function FrameEvents(downscaling: int, offset: real, raymarched: RenderTexture, avgDepth: RenderTexture,
                       read: RenderTexture, write: RenderTexture, seeded: bool, view: Matrix4x4,
                       source: RenderTexture, destination: RenderTexture): seq<GpuEvent>
  {
    [ SetKeyword("DOWNSAMPLE_1", downscaling == 1),
      SetKeyword("DOWNSAMPLE_2", downscaling == 2),
      SetRaymarchOffset(offset),
      RaymarchPass([ColorBuffer(raymarched), ColorBuffer(avgDepth)], DepthBuffer(raymarched)) ] +
    (if seeded then [Copy(raymarched, read)] else []) +
    [ BlendPass(read, write, raymarched, avgDepth, view),
      LightingPass(write, source, destination) ]
  }

  function Pow2(k: nat): (r: nat)
    ensures r >= 1
  {
    if k == 0 then 1 else 2 * Pow2(k - 1)
  }

  /**
   * `x >> count` on a C# `int`: the count is taken modulo 32 (C# masks it
   * with 31, and Dafny's `%` never returns a negative remainder), and the
   * arithmetic shift rounds toward negative infinity, as Dafny's `/` by a
   * positive divisor does.
   */
  function ShiftRight(x: int, count: int): int {
    x / Pow2(count % 32)
  }

  /** An arithmetic right shift rounds down: `x` lies between `(x >> count) * 2^(count mod 32)` and the next multiple. */
  lemma ShiftRightRoundsDown(x: int, count: int)
    ensures var r, p := ShiftRight(x, count), Pow2(count % 32); r * p <= x < (r + 1) * p
  {
    FloorDivBounds(x, Pow2(count % 32));
  }

  /** For the downscaling powers 0 to 2 the working size is the screen size divided by `2^d`, rounded down. */
  lemma {:induction false} DownscaledSize(x: int, d: int)
    requires 0 <= d <= 2
    ensures ShiftRight(x, d) == x / Pow2(d)
    ensures ShiftRight(x, d) * Pow2(d) <= x < (ShiftRight(x, d) + 1) * Pow2(d)
    ensures d == 0 ==> ShiftRight(x, d) == x
    ensures d == 1 ==> ShiftRight(x, d) == x / 2
    ensures d == 2 ==> ShiftRight(x, d) == x / 4
  {
    assert d % 32 == d;
    if d == 0 {
      assert Pow2(d) == 1;
    } else if d == 1 {
      assert Pow2(d) == 2 * Pow2(0) == 2;
    } else {
      assert Pow2(d) == 2 * Pow2(1) && Pow2(1) == 2 * Pow2(0);
    }
    FloorDivBounds(x, Pow2(d));
  }

  /** Division by a positive `p` rounds down: `x` lies between `(x / p) * p` and the next multiple of `p`. */
  lemma FloorDivBounds(x: int, p: int)
    requires p >= 1
    ensures (x / p) * p <= x < (x / p + 1) * p
  {
    var q, r := x / p, x % p;
    assert x == q * p + r && 0 <= r < p;
    assert (q + 1) * p == q * p + p;
  }

  /** The request for the history buffers and the raymarched buffer. */
  function ColorRequest(width: int, height: int): Descriptor {
    Descriptor(width, height, ARGBFloat, Bilinear, Clamp, false, false, 0, 1)
  }

  /** The request for the average-depth buffer. */
  function DepthRequest(width: int, height: int): Descriptor {
    Descriptor(width, height, RFloat, Bilinear, Clamp, false, false, 0, 1)
  }

  /** `rt` is present and will be kept by `EnsureRenderTexture(rt, want)`. */
  predicate Keeps(rt: RenderTexture?, want: Descriptor) {
    rt != null && Matches(rt.Properties(), want)
  }

  /**
   * `after` is what `EnsureRenderTexture` leaves in a field that held
   * `before`: a texture with the properties `EnsureDescriptor` decides, the
   * same object when `before` already matched, and `before` released when
   * it did not.
   */
  ghost predicate EnsuredSlot(before: RenderTexture?, after: RenderTexture?, want: Descriptor)
    reads before
  {
    && after != null
    && after.Properties() == EnsureDescriptor(DescriptorOf(before), want).texture
    && (Keeps(before, want) ==> after == before)
    && (before != null && !Keeps(before, want) ==> before.state == Released)
  }

  /** A texture held in a field is owned by the effect. */
  predicate Owned(rt: RenderTexture?, repr: set<object>) {
    rt != null ==> rt in repr
  }

  /** A texture held in a field has its GPU resource. */
  predicate Live(rt: RenderTexture?)
    reads rt
  {
    rt != null ==> rt.state == Created
  }

  /** Two references do not share a texture. */
  predicate Apart(a: RenderTexture?, b: RenderTexture?) {
    a == null || a != b
  }

  class CloudsHistoryEffect {
    /** The power of 2 the raymarch and history buffers are downscaled by (the inspector offers 0 to 2). */
    var downscaling: int
    var historyDoubleBuffers: array?<RenderTexture?>
    var raymarchedBuffer: RenderTexture?
    var raymarchAvgDepthBuffer: RenderTexture?
    var raymarchColorBuffers: array?<RenderBuffer>
    var isFirstFrame: bool
    var historyIndex: int
    var previousViewMatrix: Matrix4x4
    var lowDiscrepancySequence: LowDiscrepancy.LowDiscrepancySequence

    /** The history buffer the last frame blended into, if a frame has run. */
    ghost var lastBlendTarget: RenderTexture?
    ghost var Repr: set<object>

    /** History buffer `i`, or null while the pair does not exist. */
    function HistoryBuffer(i: int): RenderTexture?
      requires 0 <= i < 2
      reads this`historyDoubleBuffers, historyDoubleBuffers
    {
      if historyDoubleBuffers == null || historyDoubleBuffers.Length != 2 then null
      else historyDoubleBuffers[i]
    }

    /**
     * The buffers' share of `Valid`: the arrays and the four render
     * textures are owned, the textures are created and no two fields share one.
     */
    ghost predicate BuffersValid()
      reads this`Repr, this`historyDoubleBuffers, this`raymarchedBuffer, this`raymarchAvgDepthBuffer
      reads this`raymarchColorBuffers, historyDoubleBuffers
      reads HistoryBuffer(0), HistoryBuffer(1), raymarchedBuffer, raymarchAvgDepthBuffer
    {
      && (historyDoubleBuffers != null ==> historyDoubleBuffers in Repr && historyDoubleBuffers.Length == 2)
      && (raymarchColorBuffers != null ==> raymarchColorBuffers in Repr)
      // every texture held is owned and created
      && Owned(HistoryBuffer(0), Repr) && Live(HistoryBuffer(0))
      && Owned(HistoryBuffer(1), Repr) && Live(HistoryBuffer(1))
      && Owned(raymarchedBuffer, Repr) && Live(raymarchedBuffer)
      && Owned(raymarchAvgDepthBuffer, Repr) && Live(raymarchAvgDepthBuffer)
      // the four render textures are four different objects
      && Apart(HistoryBuffer(0), HistoryBuffer(1))
      && Apart(HistoryBuffer(0), raymarchedBuffer)
      && Apart(HistoryBuffer(0), raymarchAvgDepthBuffer)
      && Apart(HistoryBuffer(1), raymarchedBuffer)
      && Apart(HistoryBuffer(1), raymarchAvgDepthBuffer)
      && Apart(raymarchedBuffer, raymarchAvgDepthBuffer)
    }

    ghost predicate Valid()
      reads this`Repr, this`lowDiscrepancySequence, this`historyIndex, this`lastBlendTarget
      reads this`historyDoubleBuffers, this`raymarchedBuffer, this`raymarchAvgDepthBuffer
      reads this`raymarchColorBuffers, lowDiscrepancySequence, historyDoubleBuffers
      reads HistoryBuffer(0), HistoryBuffer(1), raymarchedBuffer, raymarchAvgDepthBuffer
    {
      && this in Repr
      && lowDiscrepancySequence in Repr && lowDiscrepancySequence.sequenceBase >= 2
      && 0 <= historyIndex <= 1
      && BuffersValid()
      // ping-pong: the buffer not indexed by `historyIndex` holds the last frame's blend
      && (lastBlendTarget != null ==> lastBlendTarget == HistoryBuffer(1 - historyIndex))
    }

    /** All four render textures exist and already match the requests for a `width x height` frame. */
    ghost predicate KeepsAll(width: int, height: int)
      reads this`historyDoubleBuffers, this`raymarchedBuffer, this`raymarchAvgDepthBuffer, historyDoubleBuffers
    {
      && Keeps(HistoryBuffer(0), ColorRequest(width, height))
      && Keeps(HistoryBuffer(1), ColorRequest(width, height))
      && Keeps(raymarchedBuffer, ColorRequest(width, height))
      && Keeps(raymarchAvgDepthBuffer, DepthRequest(width, height))
    }

    /**
     * The buffers a frame renders with are in place: the pair of history
     * buffers, the two raymarch buffers, and the colour targets pointing at
     * the raymarch buffers.
     */
    ghost predicate Prepared()
      reads this`historyDoubleBuffers, historyDoubleBuffers, this`raymarchedBuffer, this`raymarchAvgDepthBuffer
      reads this`raymarchColorBuffers, raymarchColorBuffers
    {
      && historyDoubleBuffers != null && historyDoubleBuffers.Length == 2
      && HistoryBuffer(0) != null && HistoryBuffer(1) != null
      && raymarchedBuffer != null && raymarchAvgDepthBuffer != null && raymarchColorBuffers != null
      && raymarchColorBuffers[..] == [ColorBuffer(raymarchedBuffer), ColorBuffer(raymarchAvgDepthBuffer)]
    }

    /**
     * Each of the four buffers is what `EnsureRenderTexture` leaves behind
     * for a `width x height` frame, given the textures the fields held before.
     */
    ghost predicate EnsuredAll(history0: RenderTexture?, history1: RenderTexture?, raymarched: RenderTexture?,
                               avgDepth: RenderTexture?, width: int, height: int)
      reads this`historyDoubleBuffers, historyDoubleBuffers, this`raymarchedBuffer, this`raymarchAvgDepthBuffer
      reads history0, history1, raymarched, avgDepth
    {
      && EnsuredSlot(history0, HistoryBuffer(0), ColorRequest(width, height))
      && EnsuredSlot(history1, HistoryBuffer(1), ColorRequest(width, height))
      && EnsuredSlot(raymarched, raymarchedBuffer, ColorRequest(width, height))
      && EnsuredSlot(avgDepth, raymarchAvgDepthBuffer, DepthRequest(width, height))
    }

    /** The field initialisers: no buffers yet, first frame pending, history index 0, a fresh sequence. */
    constructor (downscaling: int)
      ensures Valid() && fresh(Repr)
      ensures this.downscaling == downscaling
      ensures historyDoubleBuffers == null && raymarchedBuffer == null && raymarchAvgDepthBuffer == null
      ensures raymarchColorBuffers == null && lastBlendTarget == null
      ensures isFirstFrame && historyIndex == 0 && previousViewMatrix == ZERO_MATRIX
      ensures lowDiscrepancySequence.sequenceIndex == 0
      ensures lowDiscrepancySequence.sequenceBase == LowDiscrepancy.DEFAULT_BASE
    {
      this.downscaling := downscaling;
      historyDoubleBuffers := null;
      raymarchedBuffer := null;
      raymarchAvgDepthBuffer := null;
      raymarchColorBuffers := null;
      isFirstFrame := true;
      historyIndex := 0;
      previousViewMatrix := ZERO_MATRIX;
      var sequence := new LowDiscrepancy.LowDiscrepancySequence();
      lowDiscrepancySequence := sequence;
      lastBlendTarget := null;
      Repr := {this, sequence};
    }

    /** Marks the next frame as a first frame (the base class also looks up the camera). */
    method Awake()
      requires Valid()
      modifies this`isFirstFrame
      ensures Valid() && isFirstFrame
    {
      isFirstFrame := true;
    }

    /** Marks the next frame as a first frame (the base class also turns on the camera's depth texture). */
    method OnEnable()
      requires Valid()
      modifies this`isFirstFrame
      ensures Valid() && isFirstFrame
    {
      isFirstFrame := true;
    }

    /** `EnsureRenderTexture` on history buffer `i`, stored back into the array. */
    method EnsureHistoryBuffer(i: int, width: int, height: int) returns (created: bool)
      requires Valid() && historyDoubleBuffers != null && 0 <= i < 2
      modifies historyDoubleBuffers, HistoryBuffer(i), this`Repr, this`lastBlendTarget
      ensures Valid() && fresh(Repr - old(Repr))
      ensures EnsuredSlot(old(HistoryBuffer(i)), HistoryBuffer(i), ColorRequest(width, height))
      ensures created == !Keeps(old(HistoryBuffer(i)), ColorRequest(width, height))
      ensures created ==> lastBlendTarget == null
      ensures !created ==> lastBlendTarget == old(lastBlendTarget)
      ensures HistoryBuffer(1 - i) == old(HistoryBuffer(1 - i))
    {
      var t, c := EnsureRenderTexture(historyDoubleBuffers[i], width, height, ARGBFloat, Bilinear);
      historyDoubleBuffers[i] := t;
      Repr := Repr + {t};
      if c {
        // the history this buffer held is gone
        lastBlendTarget := null;
      }
      created := c;
    }

    /** `EnsureRenderTexture` on the raymarched buffer. */
    method EnsureRaymarchedBuffer(width: int, height: int) returns (created: bool)
      requires Valid()
      modifies raymarchedBuffer, this`raymarchedBuffer, this`Repr
      ensures Valid() && fresh(Repr - old(Repr))
      ensures EnsuredSlot(old(raymarchedBuffer), raymarchedBuffer, ColorRequest(width, height))
      ensures created == !Keeps(old(raymarchedBuffer), ColorRequest(width, height))
    {
      var t, c := EnsureRenderTexture(raymarchedBuffer, width, height, ARGBFloat, Bilinear);
      raymarchedBuffer := t;
      Repr := Repr + {t};
      created := c;
    }

    /** `EnsureRenderTexture` on the average-depth buffer. */
    method EnsureAvgDepthBuffer(width: int, height: int) returns (created: bool)
      requires Valid()
      modifies raymarchAvgDepthBuffer, this`raymarchAvgDepthBuffer, this`Repr
      ensures Valid() && fresh(Repr - old(Repr))
      ensures EnsuredSlot(old(raymarchAvgDepthBuffer), raymarchAvgDepthBuffer, DepthRequest(width, height))
      ensures created == !Keeps(old(raymarchAvgDepthBuffer), DepthRequest(width, height))
    {
      var t, c := EnsureRenderTexture(raymarchAvgDepthBuffer, width, height, RFloat, Bilinear);
      raymarchAvgDepthBuffer := t;
      Repr := Repr + {t};
      created := c;
    }

    /** The history half of `EnsureBuffers`: allocate the pair if needed, then ensure both buffers. */
    method EnsureHistoryBuffers(width: int, height: int) returns (created: bool)
      requires Valid()
      modifies Repr
      ensures Valid() && fresh(Repr - old(Repr))
      ensures historyDoubleBuffers != null && HistoryBuffer(0) != null && HistoryBuffer(1) != null
      ensures EnsuredSlot(old(HistoryBuffer(0)), HistoryBuffer(0), ColorRequest(width, height))
      ensures EnsuredSlot(old(HistoryBuffer(1)), HistoryBuffer(1), ColorRequest(width, height))
      ensures created == !(Keeps(old(HistoryBuffer(0)), ColorRequest(width, height)) &&
                           Keeps(old(HistoryBuffer(1)), ColorRequest(width, height)))
      ensures created ==> lastBlendTarget == null
      ensures !created ==> historyDoubleBuffers == old(historyDoubleBuffers) && lastBlendTarget == old(lastBlendTarget)
      ensures raymarchedBuffer == old(raymarchedBuffer) && raymarchAvgDepthBuffer == old(raymarchAvgDepthBuffer)
      ensures raymarchedBuffer != null ==> unchanged(raymarchedBuffer)
      ensures raymarchAvgDepthBuffer != null ==> unchanged(raymarchAvgDepthBuffer)
      ensures downscaling == old(downscaling) && historyIndex == old(historyIndex)
      ensures isFirstFrame == old(isFirstFrame) && previousViewMatrix == old(previousViewMatrix)
      ensures raymarchColorBuffers == old(raymarchColorBuffers)
      ensures lowDiscrepancySequence == old(lowDiscrepancySequence)
      ensures unchanged(lowDiscrepancySequence)
    {
      if historyDoubleBuffers == null {
        historyDoubleBuffers := new RenderTexture?[2](_ => null);
        Repr := Repr + {historyDoubleBuffers};
      }
      var c0 := EnsureHistoryBuffer(0, width, height);
      var c1 := EnsureHistoryBuffer(1, width, height);
      created := c0 || c1;
    }

    /** The raymarch half of `EnsureBuffers`: ensure the raymarched and the average-depth buffers. */
    method EnsureRaymarchBuffers(width: int, height: int) returns (created: bool)
      requires Valid()
      modifies raymarchedBuffer, raymarchAvgDepthBuffer, this`raymarchedBuffer, this`raymarchAvgDepthBuffer, this`Repr
      ensures Valid() && fresh(Repr - old(Repr))
      ensures raymarchedBuffer != null && raymarchAvgDepthBuffer != null
      ensures EnsuredSlot(old(raymarchedBuffer), raymarchedBuffer, ColorRequest(width, height))
      ensures EnsuredSlot(old(raymarchAvgDepthBuffer), raymarchAvgDepthBuffer, DepthRequest(width, height))
      ensures created == !(Keeps(old(raymarchedBuffer), ColorRequest(width, height)) &&
                           Keeps(old(raymarchAvgDepthBuffer), DepthRequest(width, height)))
    {
      var c2 := EnsureRaymarchedBuffer(width, height);
      var c3 := EnsureAvgDepthBuffer(width, height);
      created := c2 || c3;
    }

    /**
     * The first part of a frame: make sure the two history buffers, the
     * raymarched buffer and the average-depth buffer exist at the working
     * size. Reports whether any of them was (re)created.
     */
    method EnsureBuffers(width: int, height: int) returns (anyCreated: bool)
      requires Valid()
      modifies Repr
      ensures Valid() && fresh(Repr - old(Repr))
      ensures anyCreated == !old(KeepsAll(width, height))
      ensures historyDoubleBuffers != null && HistoryBuffer(0) != null && HistoryBuffer(1) != null
      ensures raymarchedBuffer != null && raymarchAvgDepthBuffer != null
      ensures KeepsAll(width, height)
      ensures EnsuredAll(old(HistoryBuffer(0)), old(HistoryBuffer(1)), old(raymarchedBuffer), old(raymarchAvgDepthBuffer),
                         width, height)
      ensures var historyKept := Keeps(old(HistoryBuffer(0)), ColorRequest(width, height)) &&
                                 Keeps(old(HistoryBuffer(1)), ColorRequest(width, height));
              !historyKept ==> lastBlendTarget == null
      ensures !anyCreated ==>
                historyDoubleBuffers == old(historyDoubleBuffers) && lastBlendTarget == old(lastBlendTarget) &&
                HistoryBuffer(0) == old(HistoryBuffer(0)) && HistoryBuffer(1) == old(HistoryBuffer(1))
      ensures downscaling == old(downscaling) && historyIndex == old(historyIndex)
      ensures isFirstFrame == old(isFirstFrame) && previousViewMatrix == old(previousViewMatrix)
      ensures raymarchColorBuffers == old(raymarchColorBuffers)
      ensures lowDiscrepancySequence == old(lowDiscrepancySequence)
      ensures unchanged(lowDiscrepancySequence)
    {
      var historyCreated := EnsureHistoryBuffers(width, height);
      var raymarchCreated := EnsureRaymarchBuffers(width, height);
      anyCreated := historyCreated || raymarchCreated;
    }

    /** Points the raymarch colour targets at the raymarched and average-depth buffers, reusing a two-element array. */
    method SetRaymarchColorBuffers()
      requires Valid() && raymarchedBuffer != null && raymarchAvgDepthBuffer != null
      modifies raymarchColorBuffers, this`raymarchColorBuffers, this`Repr
      ensures Valid() && fresh(Repr - old(Repr))
      ensures raymarchColorBuffers != null
      ensures raymarchColorBuffers[..] == [ColorBuffer(raymarchedBuffer), ColorBuffer(raymarchAvgDepthBuffer)]
      ensures old(raymarchColorBuffers != null && raymarchColorBuffers.Length == 2) ==>
                raymarchColorBuffers == old(raymarchColorBuffers)
    {
      if raymarchColorBuffers == null || raymarchColorBuffers.Length != 2 {
        raymarchColorBuffers := new RenderBuffer[] [ColorBuffer(raymarchedBuffer), ColorBuffer(raymarchAvgDepthBuffer)];
        Repr := Repr + {raymarchColorBuffers};
      } else {
        raymarchColorBuffers[0] := ColorBuffer(raymarchedBuffer);
        raymarchColorBuffers[1] := ColorBuffer(raymarchAvgDepthBuffer);
      }
    }

    /**
     * The preparing half of a frame: ensure the buffers and point the
     * raymarch colour targets at the raymarch buffers. Returns whether a
     * buffer had to be made anew.
     */
    method PrepareFrame(width: int, height: int) returns (created: bool)
      requires Valid()
      modifies Repr
      ensures Valid() && fresh(Repr - old(Repr))
      ensures Prepared() && KeepsAll(width, height)
      ensures created == !old(KeepsAll(width, height))
      ensures EnsuredAll(old(HistoryBuffer(0)), old(HistoryBuffer(1)), old(raymarchedBuffer), old(raymarchAvgDepthBuffer),
                         width, height)
      ensures var historyKept := Keeps(old(HistoryBuffer(0)), ColorRequest(width, height)) &&
                                 Keeps(old(HistoryBuffer(1)), ColorRequest(width, height));
              !historyKept ==> lastBlendTarget == null
      ensures old(KeepsAll(width, height)) ==>
                historyDoubleBuffers == old(historyDoubleBuffers) && lastBlendTarget == old(lastBlendTarget) &&
                HistoryBuffer(0) == old(HistoryBuffer(0)) && HistoryBuffer(1) == old(HistoryBuffer(1))
      ensures downscaling == old(downscaling) && historyIndex == old(historyIndex)
      ensures isFirstFrame == old(isFirstFrame) && previousViewMatrix == old(previousViewMatrix)
      ensures lowDiscrepancySequence == old(lowDiscrepancySequence)
      ensures unchanged(lowDiscrepancySequence)
    {
      created := EnsureBuffers(width, height);
      SetRaymarchColorBuffers();
    }

    /**
     * Pass 0: set the downsampling keywords, jitter the raymarch start with
     * the next Halton value and raymarch into the raymarched and
     * average-depth buffers, with the raymarched buffer's depth.
     */
    method Raymarch() returns (events: seq<GpuEvent>)
      requires BuffersValid() && lowDiscrepancySequence.sequenceBase >= 2 && Prepared()
      modifies lowDiscrepancySequence
      ensures lowDiscrepancySequence.sequenceBase == old(lowDiscrepancySequence.sequenceBase)
      ensures lowDiscrepancySequence.sequenceIndex == LowDiscrepancy.Increment(old(lowDiscrepancySequence.sequenceIndex))
      ensures events ==
                [ SetKeyword("DOWNSAMPLE_1", downscaling == 1),
                  SetKeyword("DOWNSAMPLE_2", downscaling == 2),
                  SetRaymarchOffset(LowDiscrepancy.HaltonValue(old(lowDiscrepancySequence.sequenceIndex) as int,
                                                               lowDiscrepancySequence.sequenceBase as int)),
                  RaymarchPass([ColorBuffer(raymarchedBuffer), ColorBuffer(raymarchAvgDepthBuffer)],
                               DepthBuffer(raymarchedBuffer)) ]
    {
      var colorTargets := raymarchColorBuffers[..];
      events := [SetKeyword("DOWNSAMPLE_1", downscaling == 1), SetKeyword("DOWNSAMPLE_2", downscaling == 2)];
      var offset := lowDiscrepancySequence.GetNextValue();
      events := events + [SetRaymarchOffset(offset), RaymarchPass(colorTargets, DepthBuffer(raymarchedBuffer))];
    }

    /**
     * The render half of a frame, once the buffers are in place: a frame
     * whose buffers were just made counts as a first frame; flip the
     * history index, raymarch, seed the history on a first frame, blend
     * from the indexed history buffer into the other one, and light the
     * scene from the blended buffer.
     */
    method RenderFrame(created: bool, camera: Camera, source: RenderTexture, destination: RenderTexture)
      returns (events: seq<GpuEvent>)
      requires Valid() && Prepared()
      modifies this`historyIndex, this`isFirstFrame, this`previousViewMatrix, this`lastBlendTarget
      modifies lowDiscrepancySequence
      ensures Valid() && Prepared()
      ensures historyIndex == (old(historyIndex) + 1) % 2
      ensures !isFirstFrame && previousViewMatrix == camera.worldToCameraMatrix
      ensures lastBlendTarget == HistoryBuffer(1 - historyIndex)
      ensures HistoryBuffer(historyIndex) != HistoryBuffer(1 - historyIndex)
      // ping-pong: the buffer read is the one the previous frame blended into
      ensures old(lastBlendTarget) != null ==> HistoryBuffer(historyIndex) == old(lastBlendTarget)
      ensures lowDiscrepancySequence.sequenceBase == old(lowDiscrepancySequence.sequenceBase)
      ensures lowDiscrepancySequence.sequenceIndex == LowDiscrepancy.Increment(old(lowDiscrepancySequence.sequenceIndex))
      ensures var seeded := old(isFirstFrame) || created;
              events == FrameEvents(
                downscaling,
                LowDiscrepancy.HaltonValue(old(lowDiscrepancySequence.sequenceIndex) as int,
                                           lowDiscrepancySequence.sequenceBase as int),
                raymarchedBuffer, raymarchAvgDepthBuffer, HistoryBuffer(historyIndex), HistoryBuffer(1 - historyIndex),
                seeded, if seeded then camera.worldToCameraMatrix else old(previousViewMatrix), source, destination)
    {
      var seeded := isFirstFrame || created;
      historyIndex := (historyIndex + 1) % 2;
      var raymarched: RenderTexture := raymarchedBuffer;
      events := Raymarch();

      // pass 1: blend into the other history buffer
      var read: RenderTexture := historyDoubleBuffers[historyIndex];
      if seeded {
        events := events + [Copy(raymarched, read)];
        previousViewMatrix := camera.worldToCameraMatrix;
      }
      var historyOtherIndex := (historyIndex + 1) % 2;
      var write: RenderTexture := historyDoubleBuffers[historyOtherIndex];
      var avgDepth: RenderTexture := raymarchAvgDepthBuffer;
      events := events + [BlendPass(read, write, raymarched, avgDepth, previousViewMatrix)];

      // pass 2: lighting
      events := events + [LightingPass(write, source, destination)];

      previousViewMatrix := camera.worldToCameraMatrix;
      isFirstFrame := false;
      lastBlendTarget := write;
    }

    /**
     * One frame of the effect. The buffers are brought to the working size
     * (the screen size shifted right by `downscaling`); a frame that is the
     * first one, or whose buffers had to be made anew, seeds the history
     * with a copy of the raymarch result and reprojects with the current
     * view. The history index flips, the frame blends from the buffer it
     * now indexes into the other one, and lights the scene from that one.
     */
    method PerformEffect(camera: Camera, source: RenderTexture, destination: RenderTexture)
      returns (events: seq<GpuEvent>)
      requires Valid()
      modifies Repr
      ensures Valid() && fresh(Repr - old(Repr))
      ensures downscaling == old(downscaling)
      ensures Prepared() && KeepsAll(ShiftRight(source.width, downscaling), ShiftRight(source.height, downscaling))
      ensures EnsuredAll(old(HistoryBuffer(0)), old(HistoryBuffer(1)), old(raymarchedBuffer), old(raymarchAvgDepthBuffer),
                         ShiftRight(source.width, downscaling), ShiftRight(source.height, downscaling))
      ensures HistoryBuffer(historyIndex) != HistoryBuffer(1 - historyIndex)
      ensures historyIndex == (old(historyIndex) + 1) % 2
      ensures !isFirstFrame && previousViewMatrix == camera.worldToCameraMatrix
      ensures lowDiscrepancySequence == old(lowDiscrepancySequence)
      ensures lowDiscrepancySequence.sequenceBase == old(lowDiscrepancySequence.sequenceBase)
      ensures lowDiscrepancySequence.sequenceIndex == LowDiscrepancy.Increment(old(lowDiscrepancySequence.sequenceIndex))
      ensures lastBlendTarget == HistoryBuffer(1 - historyIndex)
      ensures old(KeepsAll(ShiftRight(source.width, downscaling), ShiftRight(source.height, downscaling))) ==>
                HistoryBuffer(0) == old(HistoryBuffer(0)) && HistoryBuffer(1) == old(HistoryBuffer(1))
      // ping-pong: without a reset, this frame reads what the previous frame wrote
      ensures old(lastBlendTarget) != null &&
              old(KeepsAll(ShiftRight(source.width, downscaling), ShiftRight(source.height, downscaling))) ==>
                HistoryBuffer(historyIndex) == old(lastBlendTarget)
      ensures var seeded := old(isFirstFrame ||
                                !KeepsAll(ShiftRight(source.width, downscaling), ShiftRight(source.height, downscaling)));
              events == FrameEvents(
                downscaling,
                LowDiscrepancy.HaltonValue(old(lowDiscrepancySequence.sequenceIndex) as int,
                                           lowDiscrepancySequence.sequenceBase as int),
                raymarchedBuffer, raymarchAvgDepthBuffer, HistoryBuffer(historyIndex), HistoryBuffer(1 - historyIndex),
                seeded, if seeded then camera.worldToCameraMatrix else old(previousViewMatrix), source, destination)
    {
      var width := ShiftRight(source.width, downscaling);
      var height := ShiftRight(source.height, downscaling);
      var created := PrepareFrame(width, height);
      events := RenderFrame(created, camera, source, destination);
    }
  }

  /**
   * Two frames in a row from the same source, with no reset in between:
   * the second frame does not seed the history, blends from the buffer the
   * first frame blended into, into the buffer the first frame read, and
   * reprojects with the first frame's view.
   */
  method ConsecutiveFrames(effect: CloudsHistoryEffect, camera1: Camera, camera2: Camera,
                           source: RenderTexture, destination: RenderTexture)
    returns (first: seq<GpuEvent>, second: seq<GpuEvent>)
    requires effect.Valid()
    modifies effect.Repr
    ensures |first| >= 6 && first[|first| - 2].BlendPass?
    ensures |second| == 6 && second[4].BlendPass? && second[5].LightingPass?
    ensures second[4].history == first[|first| - 2].target
    ensures second[4].target == first[|first| - 2].history
    ensures second[4].previousView == camera1.worldToCameraMatrix
    ensures second[5].cloudDensity == second[4].target
  {
    first := effect.PerformEffect(camera1, source, destination);
    second := effect.PerformEffect(camera2, source, destination);
  }
}
