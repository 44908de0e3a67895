/*
 * `PixelSSIdentity`: the filter that scales by 1, copying its input.
 */
module IdentityFilter {
  import opened Common
  import Raster
  import NearestFilter

  /** `getFactor()`. */
  const Factor: int := 1

  /** `apply(in, out, w, h)`: a copy of `in` when `out` is null; otherwise
      `in` copied over the front of `out`, whose remaining cells keep their
      values. `System.arraycopy` needs `out` to be at least as long as
      `in`. */
  function Apply(src: seq<Pixel>, out: Option<seq<Pixel>>): (r: seq<Pixel>)
    requires out.Some? ==> |src| <= |out.value|
    ensures out.None? ==> r == src
    ensures out.Some? ==> |r| == |out.value|
    ensures out.Some? ==> forall k :: 0 <= k < |src| ==> r[k] == src[k]
    ensures out.Some? ==> forall k :: |src| <= k < |r| ==> r[k] == out.value[k]
  {
    if out.None? then src else src + out.value[|src|..]
  }

  /** Copying again changes nothing. */
  lemma ApplyIdempotent(src: seq<Pixel>, out: Option<seq<Pixel>>)
    requires out.Some? ==> |src| <= |out.value|
    ensures Apply(src, Some(Apply(src, out))) == Apply(src, out)
  {
  }

  /** The identity filter agrees with nearest-neighbour scaling by its
      factor. */
  lemma AgreesWithNearest(src: seq<Pixel>, w: int, h: int)
    requires 0 <= w && 0 <= h && |src| == w * h
    ensures Apply(src, None) == Raster.Expand(Raster.Texture(src, w, h), Factor, Raster.Alloc(w * h))
  {
    NearestFilter.FactorOneIsCopy(src, w, h);
  }
}
