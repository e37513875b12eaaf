/**
 * Splitting a horizontally tiled 2D texture into a 3D texture.
 *
 * A `(side * tiling) x side` image holds `tiling` square `side x side` tiles
 * next to each other. The split turns tile `k` into layer `k` of a
 * `side x side x tiling` volume. Both textures store their pixels row-major
 * with x as the innermost index, so the split is a permutation of the pixel
 * array, and this module proves that it is one.
 */
module TextureSplit {

  /** One 8-bit colour channel. */
  newtype byte = x: int | 0 <= x < 256

  /** A 32-bit RGBA pixel. */
  datatype Color32 = Color32(r: byte, g: byte, b: byte, a: byte)

  /** The pixel format of a texture; the split copies it over unchanged. */
  datatype TextureFormat = RGBA32 | ARGB32 | RGB24 | Alpha8 | R8 | RGBAFloat

  /** A 2D texture, as the split reads it: its size, format and row-major pixels. */
  datatype Texture2D = Texture2D(width: int, height: int, format: TextureFormat, pixels: seq<Color32>)

  /** A 3D texture, as the split produces it. */
  datatype Texture3D = Texture3D(width: int, height: int, depth: int, format: TextureFormat,
                                 mipmap: bool, pixels: seq<Color32>)

  /** The two exceptions the split can throw. */
  datatype SplitError =
    | SideDoesNotDivide(side: int, longSide: int)  // ArgumentException
    | NotTiledAlongX                              // NotImplementedException

  datatype Result<T> = Ok(value: T) | Err(error: SplitError)

  /** Every texture the engine hands out has a positive size and one pixel per texel. */
  predicate WellFormed(t: Texture2D) {
    t.width >= 1 && t.height >= 1 && |t.pixels| == t.width * t.height
  }

  function Min(a: int, b: int): int { if a <= b then a else b }
  function Max(a: int, b: int): int { if a >= b then a else b }

  /** The tile side: the shorter of the two sides. */
  function Side(t: Texture2D): int { Min(t.width, t.height) }

  /** The longer of the two sides. */
  function LongSide(t: Texture2D): int { Max(t.width, t.height) }

  // ---------------------------------------------------------------------------
  // The index map and its inverse
  // ---------------------------------------------------------------------------

  /**
   * The position in the 3D texture that the pixel at `index` of the tiled
   * 2D texture moves to: column `x` of row `y` lies in tile `x / side` at
   * column `x % side`, and becomes texel `(x % side, y, x / side)`.
   */
  function SplitIndex(index: int, side: int, tiling: int): int
    requires index >= 0 && side >= 1 && tiling >= 1
  {
    var longSide := side * tiling;
    var xOrig := index % longSide;
    var yOrig := index / longSide;
    var whichTile := xOrig / side;
    var xInTile := xOrig % side;
    xInTile + yOrig * side + whichTile * side * side
  }

  /**
   * The position in the tiled 2D texture whose pixel ends up at `index` of
   * the 3D texture: texel `(x, y, z)` comes from column `z * side + x` of row `y`.
   */
  function TiledIndex(index: int, side: int, tiling: int): int
    requires index >= 0 && side >= 1 && tiling >= 1
  {
    var x := index % side;
    var y := (index / side) % side;
    var z := index / (side * side);
    (z * side + x) + y * (side * tiling)
  }

  /** Multiplication by a non-negative factor is monotonic, in the strict form the bounds below need. */
  lemma MulStep(a: int, b: int, d: int)
    requires a > b && d >= 0
    ensures a * d >= b * d + d
  {
    assert a * d == (a - b - 1) * d + b * d + d;
    assert (a - b - 1) * d >= 0;
  }

  /** Division of `lo + hi * d` by `d` recovers both digits. */
  lemma DivModOfSum(lo: int, hi: int, d: int)
    requires d >= 1 && 0 <= lo < d
    ensures (lo + hi * d) / d == hi && (lo + hi * d) % d == lo
  {
    var n := lo + hi * d;
    var q, r := n / d, n % d;
    assert n == q * d + r && 0 <= r < d;
    if q > hi {
      MulStep(q, hi, d);
    } else if q < hi {
      MulStep(hi, q, d);
    }
  }

  /** A number below `top * d` has a quotient by `d` below `top`. */
  lemma QuotientBound(n: int, d: int, top: int)
    requires d >= 1 && 0 <= n < top * d
    ensures 0 <= n / d < top
  {
    var q, r := n / d, n % d;
    assert n == q * d + r && 0 <= r < d;
    if q < 0 {
      MulStep(0, q, d);
    } else if q >= top {
      MulStep(q + 1, top, d);
    }
  }

  /** A digit times the radix, plus a smaller digit, stays below the next power. */
  lemma TwoDigitBound(lo: int, hi: int, d: int, top: int)
    requires d >= 1 && 0 <= lo < d && 0 <= hi < top
    ensures 0 <= lo + hi * d < top * d
  {
    MulStep(top, hi, d);
    MulStep(hi + 1, 0, d);
  }

  /** Euclidean division by a positive divisor, with the quotient on the right. */
  lemma DivMod(n: int, d: int)
    requires d >= 1
    ensures n == n % d + (n / d) * d && 0 <= n % d < d
  {
  }

  /**
   * The pixel at `index` of the image, written out as its column `t` in
   * its tile, its row `y` and its tile `w`, and where the split sends it.
   */
  lemma SplitIndexDigits(index: int, side: int, tiling: int) returns (t: int, y: int, w: int)
    requires side >= 1 && tiling >= 1 && 0 <= index < side * side * tiling
    ensures 0 <= t < side && 0 <= y < side && 0 <= w < tiling
    ensures index == (w * side + t) + y * (side * tiling)
    ensures SplitIndex(index, side, tiling) == t + y * side + w * (side * side)
  {
    var longSide := side * tiling;
    MulAssoc(side, side, tiling);
    Digits2(index, longSide, side);
    var x := index % longSide;
    y := index / longSide;
    MulComm(side, tiling);
    Digits2(x, side, tiling);
    t, w := x % side, x / side;
    MulAssoc(w, side, side);
  }

  lemma MulAssoc(a: int, b: int, c: int)
    ensures a * b * c == a * (b * c)
  {
  }

  lemma MulComm(a: int, b: int)
    ensures a * b == b * a
  {
  }

  /** The two digits of `n` in radix `d`, when `n` has no more than two. */
  lemma Digits2(n: int, d: int, top: int)
    requires d >= 1 && 0 <= n < top * d
    ensures n == n % d + (n / d) * d && 0 <= n % d < d && 0 <= n / d < top
  {
    DivMod(n, d);
    QuotientBound(n, d, top);
  }

  /** The split index of a pixel in the image lies in the volume. */
  lemma SplitIndexInRange(index: int, side: int, tiling: int)
    requires side >= 1 && tiling >= 1 && 0 <= index < side * side * tiling
    ensures 0 <= SplitIndex(index, side, tiling) < side * side * tiling
  {
    var t, y, w := SplitIndexDigits(index, side, tiling);
    TwoDigitBound(t, y, side, side);
    TwoDigitBound(t + y * side, w, side * side, tiling);
    assert tiling * (side * side) == side * side * tiling;
  }

  /** Undoing the split recovers every pixel's original position. */
  lemma {:induction false} TiledOfSplit(index: int, side: int, tiling: int)
    requires side >= 1 && tiling >= 1 && 0 <= index < side * side * tiling
    ensures 0 <= SplitIndex(index, side, tiling)
    ensures TiledIndex(SplitIndex(index, side, tiling), side, tiling) == index
  {
    var t, y, w := SplitIndexDigits(index, side, tiling);
    var j := SplitIndex(index, side, tiling);
    TwoDigitBound(t, y, side, side);
    assert j == (t + y * side) + w * (side * side);
    // the three digits of `j`: the texel's x, y and z
    DivModOfSum(t + y * side, w, side * side);
    assert j == t + (y + w * side) * side;
    DivModOfSum(t, y + w * side, side);
    DivModOfSum(y, w, side);
  }

  /** A texel index written out as its three digits `(x, y, z)`. */
  lemma VolumeDigits(index: int, side: int, tiling: int)
    requires side >= 1 && tiling >= 1 && 0 <= index < side * side * tiling
    ensures var x, y, z := index % side, (index / side) % side, index / (side * side);
            && 0 <= x < side && 0 <= y < side && 0 <= z < tiling
            && index == x + y * side + z * (side * side)
  {
    var x := index % side;
    var q := index / side;
    var y := q % side;
    var w := q / side;
    assert index == x + q * side;
    assert q == y + w * side;
    assert index == (x + y * side) + w * (side * side);
    TwoDigitBound(x, y, side, side);
    DivModOfSum(x + y * side, w, side * side);
    assert index < tiling * (side * side);
    QuotientBound(index, side * side, tiling);
  }

  /** The pixel at column `z * side + x` of row `y` lands on texel `(x, y, z)`. */
  lemma SplitOfDigits(x: int, y: int, z: int, side: int, tiling: int)
    requires side >= 1 && tiling >= 1
    requires 0 <= x < side && 0 <= y < side && 0 <= z < tiling
    ensures 0 <= (z * side + x) + y * (side * tiling) < side * side * tiling
    ensures SplitIndex((z * side + x) + y * (side * tiling), side, tiling) == x + y * side + z * (side * side)
  {
    var longSide := side * tiling;
    var i := (z * side + x) + y * longSide;
    TwoDigitBound(x, z, side, tiling);
    assert longSide == tiling * side;
    assert i == (x + z * side) + y * longSide;
    DivModOfSum(x + z * side, y, longSide);
    DivModOfSum(x, z, side);
    TwoDigitBound(x + z * side, y, longSide, side);
    assert side * longSide == side * side * tiling;
    assert z * side * side == z * (side * side);
  }

  /** Every texel of the volume comes from a pixel of the image, and the split puts it back. */
  lemma {:induction false} SplitOfTiled(index: int, side: int, tiling: int)
    requires side >= 1 && tiling >= 1 && 0 <= index < side * side * tiling
    ensures 0 <= TiledIndex(index, side, tiling) < side * side * tiling
    ensures SplitIndex(TiledIndex(index, side, tiling), side, tiling) == index
  {
    VolumeDigits(index, side, tiling);
    SplitOfDigits(index % side, (index / side) % side, index / (side * side), side, tiling);
  }

  /** No two pixels of the image land on the same texel. */
  lemma SplitIndexInjective(i: int, k: int, side: int, tiling: int)
    requires side >= 1 && tiling >= 1
    requires 0 <= i < side * side * tiling && 0 <= k < side * side * tiling
    requires SplitIndex(i, side, tiling) == SplitIndex(k, side, tiling)
    ensures i == k
  {
    TiledOfSplit(i, side, tiling);
    TiledOfSplit(k, side, tiling);
  }

  /** A square image (one tile) is not moved at all. */
  lemma {:induction false} SplitIndexOfSquare(index: int, side: int)
    requires side >= 1 && 0 <= index < side * side
    ensures SplitIndex(index, side, 1) == index
  {
    assert side * 1 == side;
    var x, y := index % side, index / side;
    DivMod(index, side);
    DivModOfSum(x, 0, side);
    assert x / side == 0 && x % side == x;
    assert SplitIndex(index, side, 1) == x + y * side + 0 * side * side;
  }

  // ---------------------------------------------------------------------------
  // The reordered pixel sequence
  // ---------------------------------------------------------------------------

  /** The pixels of the 3D texture: texel `j` holds the pixel the image kept at `TiledIndex(j)`. */
  function Reordered(s: seq<Color32>, side: int, tiling: int): seq<Color32>
    requires side >= 1 && tiling >= 1 && |s| == side * side * tiling
  {
    seq(|s|, j requires 0 <= j < |s| => SplitOfTiled(j, side, tiling); s[TiledIndex(j, side, tiling)])
  }

  /** Every pixel of the image shows up in the volume exactly where the index map sends it. */
  lemma ReorderedPlacesEveryPixel(s: seq<Color32>, side: int, tiling: int, index: int)
    requires side >= 1 && tiling >= 1 && |s| == side * side * tiling
    requires 0 <= index < |s|
    ensures |Reordered(s, side, tiling)| == |s|
    ensures 0 <= SplitIndex(index, side, tiling) < |s|
    ensures Reordered(s, side, tiling)[SplitIndex(index, side, tiling)] == s[index]
  {
    SplitIndexInRange(index, side, tiling);
    TiledOfSplit(index, side, tiling);
  }

  /** `perm` sends each position below `n` to a position below `n`, never two to the same one. */
  ghost predicate IsIndexPermutation(perm: seq<int>, n: int) {
    && |perm| == n
    && (forall j :: 0 <= j < n ==> 0 <= perm[j] < n)
    && (forall j, k :: 0 <= j < k < n ==> perm[j] != perm[k])
  }

  /** Two sequences related by an index permutation hold the same multiset of elements. */
  lemma {:induction false} PermutedMultiset<T>(a: seq<T>, b: seq<T>, perm: seq<int>)
    requires |a| == |b| && IsIndexPermutation(perm, |a|)
    requires forall j :: 0 <= j < |b| ==> b[j] == a[perm[j]]
    ensures multiset(a) == multiset(b)
  {
    if |b| > 0 {
      var n := |b|;
      var k := perm[n - 1];
      var a' := a[..k] + a[k + 1..];
      var b' := b[..n - 1];
      var perm' := seq(n - 1, j requires 0 <= j < n - 1 => if perm[j] < k then perm[j] else perm[j] - 1);
      forall j | 0 <= j < n - 1
        ensures 0 <= perm'[j] < n - 1 && b'[j] == a'[perm'[j]]
      {
        assert perm[j] != perm[n - 1];
      }
      forall j, i | 0 <= j < i < n - 1
        ensures perm'[j] != perm'[i]
      {
        assert perm[j] != perm[n - 1] && perm[i] != perm[n - 1];
      }
      PermutedMultiset(a', b', perm');
      assert a == a[..k] + [a[k]] + a[k + 1..];
      assert b == b' + [b[n - 1]];
    }
  }

  /** The volume's pixels are a permutation of the image's pixels. */
  lemma ReorderedIsPermutation(s: seq<Color32>, side: int, tiling: int)
    requires side >= 1 && tiling >= 1 && |s| == side * side * tiling
    ensures multiset(Reordered(s, side, tiling)) == multiset(s)
  {
    var r := Reordered(s, side, tiling);
    var perm := seq(|s|, i requires 0 <= i < |s| => SplitIndex(i, side, tiling));
    forall i | 0 <= i < |s|
      ensures 0 <= perm[i] < |s| && s[i] == r[perm[i]]
    {
      ReorderedPlacesEveryPixel(s, side, tiling, i);
    }
    forall j, k | 0 <= j < k < |s|
      ensures perm[j] != perm[k]
    {
      if perm[j] == perm[k] {
        SplitIndexInjective(j, k, side, tiling);
      }
    }
    PermutedMultiset(r, s, perm);
  }

  /** A square image (tiling 1) is copied unchanged. */
  lemma ReorderedSquareIsIdentity(s: seq<Color32>, side: int)
    requires side >= 1 && |s| == side * side * 1
    ensures Reordered(s, side, 1) == s
  {
    var r := Reordered(s, side, 1);
    forall j | 0 <= j < |s|
      ensures r[j] == s[j]
    {
      ReorderedPlacesEveryPixel(s, side, 1, j);
      SplitIndexOfSquare(j, side);
    }
  }

  /** When the shorter side divides the longer one, the image holds `side * side * tiling` pixels. */
  lemma TileCount(width: int, height: int)
    requires width >= 1 && height >= 1 && Max(width, height) % Min(width, height) == 0
    ensures var side := Min(width, height);
            width * height == side * side * (Max(width, height) / side)
  {
    var side, longSide := Min(width, height), Max(width, height);
    var tiling := longSide / side;
    DivMod(longSide, side);
    assert longSide == tiling * side;
    assert width * height == side * longSide;
    assert side * longSide == side * (tiling * side);
    assert side * (tiling * side) == side * side * tiling;
  }

  // ---------------------------------------------------------------------------
  // The operations
  // ---------------------------------------------------------------------------

  /**
   * Reorders the pixels of an image of `tiling` square tiles laid out along x
   * into the layer order of a `side x side x tiling` volume. An image tiled
   * along y is refused.
   */
  method ReorderPixels(pixels2D: array<Color32>, side: int, tiling: int, tiledAlongX: bool)
    returns (r: Result<array<Color32>>)
    requires side >= 1 && tiling >= 1
    requires pixels2D.Length == side * side * tiling
    ensures !tiledAlongX <==> r.Err?
    ensures r.Err? ==> r.error == NotTiledAlongX
    ensures r.Ok? ==> fresh(r.value) && r.value.Length == pixels2D.Length
    ensures r.Ok? ==> forall index :: 0 <= index < pixels2D.Length ==>
                        0 <= SplitIndex(index, side, tiling) < r.value.Length &&
                        r.value[SplitIndex(index, side, tiling)] == pixels2D[index]
    ensures r.Ok? ==> r.value[..] == Reordered(pixels2D[..], side, tiling)
  {
    if !tiledAlongX {
      return Err(NotTiledAlongX);
    }
    var ordered := new Color32[pixels2D.Length];
    var longSide := side * tiling;
    for index := 0 to pixels2D.Length
      invariant forall i :: 0 <= i < index ==> 0 <= SplitIndex(i, side, tiling) < ordered.Length
      invariant forall i :: 0 <= i < index ==> ordered[SplitIndex(i, side, tiling)] == pixels2D[i]
    {
      var xOrig := index % longSide;
      var yOrig := index / longSide;
      var color := pixels2D[index];
      var whichTile := xOrig / side;
      var xInTile := xOrig % side;
      var xNew, yNew, zNew := xInTile, yOrig, whichTile;
      var indexNew := xNew + yNew * side + zNew * side * side;
      assert indexNew == SplitIndex(index, side, tiling);
      SplitIndexInRange(index, side, tiling);
      forall i | 0 <= i < index
        ensures SplitIndex(i, side, tiling) != indexNew
      {
        if SplitIndex(i, side, tiling) == indexNew {
          SplitIndexInjective(i, index, side, tiling);
        }
      }
      ordered[indexNew] := color;
    }
    forall j | 0 <= j < ordered.Length
      ensures ordered[j] == Reordered(pixels2D[..], side, tiling)[j]
    {
      SplitOfTiled(j, side, tiling);
    }
    return Ok(ordered);
  }

  /**
   * Splits a tiled texture into a 3D texture of `side x side x tiling`
   * texels, where `side` is the shorter side and `tiling` the number of
   * times it fits into the longer one.
   */
  method SplitTiledTexture(texture2D: Texture2D, mipmap: bool) returns (r: Result<Texture3D>)
    requires WellFormed(texture2D)
    ensures LongSide(texture2D) % Side(texture2D) != 0 ==>
              r == Err(SideDoesNotDivide(Side(texture2D), LongSide(texture2D)))
    ensures LongSide(texture2D) % Side(texture2D) == 0 && texture2D.width < texture2D.height ==>
              r == Err(NotTiledAlongX)
    ensures r.Ok? <==> LongSide(texture2D) % Side(texture2D) == 0 && texture2D.width >= texture2D.height
    ensures r.Ok? ==>
              var side := Side(texture2D);
              var tiling := LongSide(texture2D) / side;
              && r.value.width == side && r.value.height == side && r.value.depth == tiling
              && r.value.format == texture2D.format && r.value.mipmap == mipmap
              && |texture2D.pixels| == side * side * tiling
              && r.value.pixels == Reordered(texture2D.pixels, side, tiling)
    ensures r.Ok? ==> multiset(r.value.pixels) == multiset(texture2D.pixels)
  {
    var width := texture2D.width;
    var height := texture2D.height;
    var tiledAlongX := width >= height;
    var side := Min(width, height);
    var longSide := Max(width, height);
    var tiling := longSide / side;

    if longSide % side != 0 {
      return Err(SideDoesNotDivide(side, longSide));
    }

    TileCount(width, height);
    var pixels2D := new Color32[|texture2D.pixels|](i requires 0 <= i < |texture2D.pixels| => texture2D.pixels[i]);
    assert pixels2D[..] == texture2D.pixels;
    var reordered := ReorderPixels(pixels2D, side, tiling, tiledAlongX);
    if reordered.Err? {
      return Err(reordered.error);
    }
    ReorderedIsPermutation(texture2D.pixels, side, tiling);
    r := Ok(Texture3D(side, side, tiling, texture2D.format, mipmap, reordered.value[..]));
  }
}
