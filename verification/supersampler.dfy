/*
 * `PixelSupersampler`: the named filter instances, lookup of a filter by
 * name, and the default `apply(Texture)` that wraps a filter's output at
 * the scaled size.
 */
module Supersampler {
  import opened Common
  import opened XbrzUtil
  import Raster
  import NearestFilter
  import AdvMameFilter
  import EagleFilter
  import IdentityFilter
  import XbrzFilter
  import SI = ScaleImage
  import XbrzApi
  import XbrzConfig

  /** The filters behind the interface. `PixelSS2xBRZP` and `PixelSSHQx`
      appear only with their factors. */
  datatype Sampler =
    | IdentitySampler
    | NearestSampler(nearest: NearestFilter.Nearest)
    | XbrzSampler(xbrz: XbrzFilter.PixelXbrz)
    | AdvMameSampler(advMame: AdvMameFilter.AdvMame)
    | EagleSampler
    | Xbrz2PSampler
    | HqxSampler(hqxFactor: int)

  /** `getFactor()` of each filter. */
  function GetFactor(s: Sampler): int
  {
    match s
    case IdentitySampler => IdentityFilter.Factor
    case NearestSampler(n) => NearestFilter.GetFactor(n)
    case XbrzSampler(p) => XbrzFilter.GetFactor(p)
    case AdvMameSampler(m) => AdvMameFilter.GetFactor(m)
    case EagleSampler => EagleFilter.Factor
    case Xbrz2PSampler => 2
    case HqxSampler(f) => f
  }

  // The named instances, each built by its filter's constructor.
  const Identity: Sampler := IdentitySampler
  const NearestNeighbor2: Sampler := NearestSampler(NearestFilter.NewNearest(2).value)
  const NearestNeighbor3: Sampler := NearestSampler(NearestFilter.NewNearest(3).value)
  const NearestNeighbor4: Sampler := NearestSampler(NearestFilter.NewNearest(4).value)
  const NearestNeighbor5: Sampler := NearestSampler(NearestFilter.NewNearest(5).value)
  const Xbrz2: Sampler := XbrzSampler(XbrzFilter.NewPixelXbrz(2).value)
  const Xbrz3: Sampler := XbrzSampler(XbrzFilter.NewPixelXbrz(3).value)
  const Xbrz4: Sampler := XbrzSampler(XbrzFilter.NewPixelXbrz(4).value)
  const Xbrz5: Sampler := XbrzSampler(XbrzFilter.NewPixelXbrz(5).value)
  const AdvMame2: Sampler := AdvMameSampler(AdvMameFilter.NewAdvMame(2).value)
  const AdvMame3: Sampler := AdvMameSampler(AdvMameFilter.NewAdvMame(3).value)
  const Eagle: Sampler := EagleSampler
  const Hqx2: Sampler := HqxSampler(2)
  const Hqx3: Sampler := HqxSampler(3)
  const Hqx4: Sampler := HqxSampler(4)

  /** Every named instance scales by the factor its name carries. */
  lemma NamedFactors()
    ensures GetFactor(Identity) == 1
    ensures GetFactor(NearestNeighbor2) == 2 && GetFactor(NearestNeighbor3) == 3
    ensures GetFactor(NearestNeighbor4) == 4 && GetFactor(NearestNeighbor5) == 5
    ensures GetFactor(Xbrz2) == 2 && GetFactor(Xbrz3) == 3 && GetFactor(Xbrz4) == 4 && GetFactor(Xbrz5) == 5
    ensures GetFactor(AdvMame2) == 2 && GetFactor(AdvMame3) == 3
    ensures GetFactor(Eagle) == 2
    ensures GetFactor(Hqx2) == 2 && GetFactor(Hqx3) == 3 && GetFactor(Hqx4) == 4
  {
  }

  // ---------------------------------------------------------------------
  // Lookup by name

  /** `Character.toLowerCase` on the ASCII letters. */
  function LowerChar(c: char): (r: char)
    ensures 'A' <= c <= 'Z' ==> r as int == c as int + 32
    ensures !('A' <= c <= 'Z') ==> r == c
  {
    if 'A' <= c <= 'Z' then (c as int + 32) as char else c
  }

  /** `String.toLowerCase()`, letter by letter. */
  function ToLower(s: string): (r: string)
    ensures |r| == |s| && forall i :: 0 <= i < |s| ==> r[i] == LowerChar(s[i])
  {
    seq(|s|, i requires 0 <= i < |s| => LowerChar(s[i]))
  }

  /** Lower-casing twice is lower-casing once. */
  lemma ToLowerIdempotent(s: string)
    ensures ToLower(ToLower(s)) == ToLower(s)
  {
  }

  /** The `switch` of `getByName`, on the lower-cased name. */
  function Lookup(n: string): Option<Sampler>
  {
    if n in {"none", "identity"} then Some(Identity)
    else if n in {"2xnn", "2xnearest", "nearest2", "nearest_2", "nearest_neighbor_2"} then Some(NearestNeighbor2)
    else if n in {"3xnn", "3xnearest", "nearest3", "nearest_3", "nearest_neighbor_3"} then Some(NearestNeighbor3)
    else if n in {"4xnn", "4xnearest", "nearest4", "nearest_4", "nearest_neighbor_4"} then Some(NearestNeighbor4)
    else if n in {"5xnn", "5xnearest", "nearest5", "nearest_5", "nearest_neighbor_5"} then Some(NearestNeighbor5)
    else if n in {"xbrz2", "xbrz_2", "2xbrz"} then Some(Xbrz2)
    else if n in {"xbrz3", "xbrz_3", "3xbrz"} then Some(Xbrz3)
    else if n in {"xbrz4", "xbrz_4", "4xbrz"} then Some(Xbrz4)
    else if n in {"xbrz5", "xbrz_5", "5xbrz"} then Some(Xbrz5)
    else if n == "2xbrzp" then Some(Xbrz2PSampler)
    else if n in {"advmame2", "advmame_2", "advmame2x"} then Some(AdvMame2)
    else if n in {"advmame3", "advmame_3", "advmame3x"} then Some(AdvMame3)
    else if n == "eagle" then Some(Eagle)
    else if n in {"hqx2", "hqx_2", "hqx2x"} then Some(Hqx2)
    else if n in {"hqx3", "hqx_3", "hqx3x"} then Some(Hqx3)
    else if n in {"hqx4", "hqx_4", "hqx4x"} then Some(Hqx4)
    else None
  }

  /** Every name `getByName` knows, in lower case. */
  function Names(): set<string>
  {
    {"none", "identity",
     "2xnn", "2xnearest", "nearest2", "nearest_2", "nearest_neighbor_2",
     "3xnn", "3xnearest", "nearest3", "nearest_3", "nearest_neighbor_3",
     "4xnn", "4xnearest", "nearest4", "nearest_4", "nearest_neighbor_4",
     "5xnn", "5xnearest", "nearest5", "nearest_5", "nearest_neighbor_5",
     "xbrz2", "xbrz_2", "2xbrz", "xbrz3", "xbrz_3", "3xbrz",
     "xbrz4", "xbrz_4", "4xbrz", "xbrz5", "xbrz_5", "5xbrz",
     "2xbrzp",
     "advmame2", "advmame_2", "advmame2x", "advmame3", "advmame_3", "advmame3x",
     "eagle",
     "hqx2", "hqx_2", "hqx2x", "hqx3", "hqx_3", "hqx3x", "hqx4", "hqx_4", "hqx4x"}
  }

  /** `getByName(name)`: the filter the lower-cased name stands for, or
      `IllegalArgumentException` naming the unknown name as given. */
  function GetByName(name: string): (r: Result<Sampler>)
    ensures ToLower(name) !in Names() ==> r == IllegalArgument("unknown sampler: " + name)
    ensures r.IllegalArgument? ==> r.message == "unknown sampler: " + name
  {
    match Lookup(ToLower(name))
    case Some(s) => Ok(s)
    case None => IllegalArgument("unknown sampler: " + name)
  }

  /** Names that differ only in the case of their letters find the same
      filter. */
  lemma GetByNameIgnoresCase(a: string, b: string)
    requires ToLower(a) == ToLower(b)
    ensures GetByName(a).Ok? <==> GetByName(b).Ok?
    ensures GetByName(a).Ok? ==> GetByName(a).value == GetByName(b).value
  {
  }

  /** `none` and `identity`, in any case, name the identity filter. */
  lemma IdentityAliases(name: string)
    requires ToLower(name) in {"none", "identity"}
    ensures GetByName(name) == Ok(Identity) && GetFactor(Identity) == 1
  {
  }

  /** The five nearest-neighbour spellings of 2, in any case, name nearest-neighbour scaling by 2. */
  lemma NearestAliases2(name: string)
    requires ToLower(name) in {"2xnn", "2xnearest", "nearest2", "nearest_2", "nearest_neighbor_2"}
    ensures GetByName(name) == Ok(NearestNeighbor2) && GetFactor(NearestNeighbor2) == 2
  {
  }

  /** The same for 3. */
  lemma NearestAliases3(name: string)
    requires ToLower(name) in {"3xnn", "3xnearest", "nearest3", "nearest_3", "nearest_neighbor_3"}
    ensures GetByName(name) == Ok(NearestNeighbor3) && GetFactor(NearestNeighbor3) == 3
  {
  }

  /** The same for 4. */
  lemma NearestAliases4(name: string)
    requires ToLower(name) in {"4xnn", "4xnearest", "nearest4", "nearest_4", "nearest_neighbor_4"}
    ensures GetByName(name) == Ok(NearestNeighbor4) && GetFactor(NearestNeighbor4) == 4
  {
  }

  /** The same for 5. */
  lemma NearestAliases5(name: string)
    requires ToLower(name) in {"5xnn", "5xnearest", "nearest5", "nearest_5", "nearest_neighbor_5"}
    ensures GetByName(name) == Ok(NearestNeighbor5) && GetFactor(NearestNeighbor5) == 5
  {
  }

  /** `xbrz2`, `xbrz_2` and `2xbrz`, in any case, name the xBRZ filter scaling by 2. */
  lemma XbrzAliases2(name: string)
    requires ToLower(name) in {"xbrz2", "xbrz_2", "2xbrz"}
    ensures GetByName(name) == Ok(Xbrz2) && GetFactor(Xbrz2) == 2
  {
  }

  /** The same for 3. */
  lemma XbrzAliases3(name: string)
    requires ToLower(name) in {"xbrz3", "xbrz_3", "3xbrz"}
    ensures GetByName(name) == Ok(Xbrz3) && GetFactor(Xbrz3) == 3
  {
  }

  /** The same for 4. */
  lemma XbrzAliases4(name: string)
    requires ToLower(name) in {"xbrz4", "xbrz_4", "4xbrz"}
    ensures GetByName(name) == Ok(Xbrz4) && GetFactor(Xbrz4) == 4
  {
  }

  /** The same for 5. */
  lemma XbrzAliases5(name: string)
    requires ToLower(name) in {"xbrz5", "xbrz_5", "5xbrz"}
    ensures GetByName(name) == Ok(Xbrz5) && GetFactor(Xbrz5) == 5
  {
  }

  /** `2xbrzp` names the filter that scales by 2 through xBRZ at 4. */
  lemma Xbrz2PAlias(name: string)
    requires ToLower(name) in {"2xbrzp"}
    ensures GetByName(name) == Ok(Xbrz2PSampler) && GetFactor(Xbrz2PSampler) == 2
  {
  }

  /** `advmame2`, `advmame_2` and `advmame2x` name AdvMAME scaling by 2. */
  lemma AdvMameAliases2(name: string)
    requires ToLower(name) in {"advmame2", "advmame_2", "advmame2x"}
    ensures GetByName(name) == Ok(AdvMame2) && GetFactor(AdvMame2) == 2
  {
  }

  /** The same for 3. */
  lemma AdvMameAliases3(name: string)
    requires ToLower(name) in {"advmame3", "advmame_3", "advmame3x"}
    ensures GetByName(name) == Ok(AdvMame3) && GetFactor(AdvMame3) == 3
  {
  }

  /** `eagle` names the Eagle filter. */
  lemma EagleAlias(name: string)
    requires ToLower(name) in {"eagle"}
    ensures GetByName(name) == Ok(Eagle) && GetFactor(Eagle) == 2
  {
  }

  /** `hqx2`, `hqx_2` and `hqx2x` name HQx scaling by 2. */
  lemma HqxAliases2(name: string)
    requires ToLower(name) in {"hqx2", "hqx_2", "hqx2x"}
    ensures GetByName(name) == Ok(Hqx2) && GetFactor(Hqx2) == 2
  {
  }

  /** The same for 3. */
  lemma HqxAliases3(name: string)
    requires ToLower(name) in {"hqx3", "hqx_3", "hqx3x"}
    ensures GetByName(name) == Ok(Hqx3) && GetFactor(Hqx3) == 3
  {
  }

  /** The same for 4. */
  lemma HqxAliases4(name: string)
    requires ToLower(name) in {"hqx4", "hqx_4", "hqx4x"}
    ensures GetByName(name) == Ok(Hqx4) && GetFactor(Hqx4) == 4
  {
  }

  // ---------------------------------------------------------------------
  // The default apply(Texture)

  /** The filters whose `apply` this model computes. */
  predicate Modelled(s: Sampler)
  {
    match s
    case IdentitySampler => true
    case NearestSampler(n) => NearestFilter.Valid(n)
    case XbrzSampler(_) => true
    case AdvMameSampler(m) => AdvMameFilter.Valid(m)
    case EagleSampler => true
    case Xbrz2PSampler => false
    case HqxSampler(_) => false
  }

  /** `apply(Texture in)`: runs the filter with no output buffer and wraps
      the result at `(w*f) x (h*f)`. */
  method ApplyTexture(s: Sampler, metric: Metric, t: Raster.Texture) returns (r: Raster.Texture)
    requires Modelled(s) && 0 <= t.w && 0 <= t.h && |t.data| == t.w * t.h
    ensures r.w == t.w * GetFactor(s) && r.h == t.h * GetFactor(s)
    ensures |r.data| == r.w * r.h
    ensures s.IdentitySampler? ==> r.data == t.data
    ensures s.NearestSampler? ==>
      r.data == Raster.Expand(t, GetFactor(s), Raster.Alloc(Raster.OutLen(t.w, t.h, GetFactor(s))))
    ensures s.AdvMameSampler? ==>
      r.data == Raster.Filtered(t, GetFactor(s), Raster.Alloc(Raster.OutLen(t.w, t.h, GetFactor(s))),
                                AdvMameFilter.Rules(s.advMame, t))
    ensures s.EagleSampler? ==>
      r.data == Raster.Filtered(t, 2, Raster.Alloc(Raster.OutLen(t.w, t.h, 2)), EagleFilter.Rules(t))
    ensures s.XbrzSampler? && 0 < t.w && 0 < t.h ==>
      var trg := Raster.Alloc(Raster.OutLen(t.w, t.h, GetFactor(s)));
      SI.TargetFits(XbrzApi.JobOf(s.xbrz.scaleSize, metric, XbrzConfig.DefaultConfig(), t.data, t.w, t.h), |trg|) &&
      r.data == SI.Rows(XbrzApi.JobOf(s.xbrz.scaleSize, metric, XbrzConfig.DefaultConfig(), t.data, t.w, t.h), trg, 0, t.h)
  {
    var f := GetFactor(s);
    var outW := t.w * f;
    var outH := t.h * f;
    var data: seq<Pixel>;
    match s {
      case IdentitySampler =>
        data := IdentityFilter.Apply(t.data, None);
      case NearestSampler(n) =>
        data := NearestFilter.Apply(n, t.data, None, t.w, t.h);
      case XbrzSampler(p) =>
        data := XbrzFilter.Apply(p, metric, t.data, None, t.w, t.h);
      case AdvMameSampler(m) =>
        data := AdvMameFilter.Apply(m, t.data, None, t.w, t.h);
      case EagleSampler =>
        data := EagleFilter.Apply(t.data, None, t.w, t.h);
    }
    r := Raster.Texture(data, outW, outH);
  }
}
