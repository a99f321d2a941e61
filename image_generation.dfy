/**
 * The slice metadata that the image passes of the openmfd slicer read and rewrite, the
 * shared image loader, and the position and regional-exposure passes.
 *
 * A slice image is a binary image (a set of lit pixels, see PixelSets). An image folder
 * is a map from file name to what the image loader makes of that file: `Some(image)`
 * when it decodes, `None` when the loader fails; a name outside the map does not exist.
 * The packed `image_data` of a slice is kept as the image it decodes to.
 */
module ImageGeneration {
  import opened Wrappers
  import opened PixelSets
  import Paths

  /** An exposure, position or membrane settings object, passed through unchanged. */
  type SettingsId = nat

  /** One entry of `slice_metadata["slices"]`. */
  datatype Meta = Meta(
    imageName: string,
    imageData: Option<Image>,
    layerPosition: real,
    positionSettings: Option<SettingsId>)

  /**
   * One entry of the `exposure_slices`, `membrane_slices` or `secondary_slices` lists;
   * `dilationPx` is present only on membrane entries.
   */
  datatype ExtraSlice = ExtraSlice(
    imageName: string,
    image: Image,
    layerPosition: real,
    exposureSettings: SettingsId,
    dilationPx: Option<nat>,
    positionSettings: SettingsId)

  /** A directory of image files: name to decoded image, `None` when the loader fails. */
  type Folder = map<string, Option<Image>>

  /** What the image loader returns for `dir / name`, `None` for a missing or unreadable file. */
  function Read(dir: Folder, name: string): (r: Option<Image>)
    ensures r.Some? ==> name in dir && dir[name] == r
  {
    if name in dir then dir[name] else None
  }

  /** The mask file exists, decodes and has a lit pixel. */
  predicate LitMask(masks: Folder, name: string)
  {
    Read(masks, name).Some? && Read(masks, name).value != {}
  }

  /** The list behind an optional metadata key, `[]` while the key is absent. */
  function OrEmpty(extras: Option<seq<ExtraSlice>>): (r: seq<ExtraSlice>)
    ensures extras.Some? ==> r == extras.value
    ensures extras.None? ==> r == []
  {
    if extras.Some? then extras.value else []
  }

  /** `slice_metadata`: the slices and the extra-image lists that are created on first use. */
  class SliceMetadata {
    var slices: seq<Meta>
    var exposureSlices: Option<seq<ExtraSlice>>
    var membraneSlices: Option<seq<ExtraSlice>>
    var secondarySlices: Option<seq<ExtraSlice>>

    constructor(slices: seq<Meta>)
      ensures this.slices == slices
      ensures exposureSlices.None? && membraneSlices.None? && secondarySlices.None?
    {
      this.slices := slices;
      exposureSlices := None;
      membraneSlices := None;
      secondarySlices := None;
    }
  }

  /**
   * `_load_image_from_meta_or_path`: the packed image data when present, otherwise what
   * the loader makes of the file; `None` when neither exists or the loader fails.
   */
  function LoadImage(meta: Meta, images: Folder): (r: Option<Image>)
    ensures meta.imageData.Some? ==> r == meta.imageData
    ensures meta.imageData.None? && meta.imageName !in images ==> r.None?
    ensures r.None? <==> meta.imageData.None? && (meta.imageName !in images || images[meta.imageName].None?)
  {
    if meta.imageData.None? && meta.imageName !in images then None
    else if meta.imageData.Some? then meta.imageData
    else Read(images, meta.imageName)
  }

  // ---------------------------------------------------------------------------------
  // Position pass
  // ---------------------------------------------------------------------------------

  /** The effect of `generate_position_images_from_folders` on one slice. */
  function WithPosition(meta: Meta, masks: Folder, settings: SettingsId): (r: Meta)
    ensures r.imageName == meta.imageName && r.imageData == meta.imageData
    ensures r.layerPosition == meta.layerPosition
    ensures LitMask(masks, meta.imageName) ==> r.positionSettings == Some(settings)
    ensures !LitMask(masks, meta.imageName) ==> r == meta
  {
    if LitMask(masks, meta.imageName) then meta.(positionSettings := Some(settings)) else meta
  }

  /** Setting the position settings twice has the effect of setting them once. */
  lemma WithPositionIdempotent(meta: Meta, masks: Folder, settings: SettingsId)
    ensures WithPosition(WithPosition(meta, masks, settings), masks, settings)
         == WithPosition(meta, masks, settings)
  {
  }

  /**
   * `generate_position_images_from_folders`: every slice whose mask file exists and has
   * a lit pixel gets the position settings; no other slice and no other list changes.
   */
  method GeneratePositionImages(md: SliceMetadata, masks: Folder, settings: SettingsId)
    modifies md
    ensures |md.slices| == |old(md.slices)|
    ensures forall k :: 0 <= k < |md.slices| ==> md.slices[k] == WithPosition(old(md.slices)[k], masks, settings)
    ensures md.exposureSlices == old(md.exposureSlices) && md.membraneSlices == old(md.membraneSlices)
    ensures md.secondarySlices == old(md.secondarySlices)
  {
    var i := 0;
    while i < |md.slices|
      invariant 0 <= i <= |md.slices| == |old(md.slices)|
      invariant forall k :: 0 <= k < i ==> md.slices[k] == WithPosition(old(md.slices)[k], masks, settings)
      invariant forall k :: i <= k < |md.slices| ==> md.slices[k] == old(md.slices)[k]
      invariant md.exposureSlices == old(md.exposureSlices) && md.membraneSlices == old(md.membraneSlices)
      invariant md.secondarySlices == old(md.secondarySlices)
    {
      var name := md.slices[i].imageName;
      var mask := Read(masks, name);
      if mask.Some? && mask.value != {} {
        md.slices := md.slices[i := md.slices[i].(positionSettings := Some(settings))];
      }
      i := i + 1;
    }
  }

  // ---------------------------------------------------------------------------------
  // Regional exposure pass
  // ---------------------------------------------------------------------------------

  /**
   * The split made for one slice: the slice image without the mask and the exposure
   * image inside the mask; `None` when the mask is missing, unreadable or dark, or the
   * image is missing or dark.
   */
  function ExposureSplit(meta: Meta, images: Folder, masks: Folder, frame: set<Pixel>): (r: Option<(Image, Image)>)
    ensures r.None? <==> !LitMask(masks, meta.imageName) || LoadImage(meta, images).None?
                         || LoadImage(meta, images).value == {}
    ensures r.Some? ==>
      var image := LoadImage(meta, images).value;
      var mask := Read(masks, meta.imageName).value;
      r.value.0 * r.value.1 == {} && (image <= frame ==> r.value.0 + r.value.1 == image)
      && r.value.1 <= mask && r.value.0 * mask == {}
  {
    if !LitMask(masks, meta.imageName) then None
    else
      var mask := Read(masks, meta.imageName).value;
      match LoadImage(meta, images)
      case None => None
      case Some(image) =>
        if image == {} then None
        else
          var exposure := image * mask;
          var rest := image * Not(mask, frame);
          Some((rest, exposure))
  }

  /** The slice produces a non-empty exposure image. */
  predicate Exposes(meta: Meta, images: Folder, masks: Folder, frame: set<Pixel>)
  {
    var s := ExposureSplit(meta, images, masks, frame);
    s.Some? && s.value.1 != {}
  }

  /** A slice after the exposure pass: its image loses the masked pixels when it was split. */
  function ExposedMeta(meta: Meta, images: Folder, masks: Folder, frame: set<Pixel>): (r: Meta)
    ensures r.imageName == meta.imageName && r.layerPosition == meta.layerPosition
    ensures r.positionSettings == meta.positionSettings
    ensures ExposureSplit(meta, images, masks, frame).None? ==> r == meta
    ensures ExposureSplit(meta, images, masks, frame).Some? ==>
      r.imageData == Some(ExposureSplit(meta, images, masks, frame).value.0)
  {
    match ExposureSplit(meta, images, masks, frame)
    case None => meta
    case Some((rest, _)) => meta.(imageData := Some(rest))
  }

  /** The state of a pass over a prefix of the slices: the slices done, the list, a raised error. */
  datatype Pass = Pass(done: seq<Meta>, extras: Option<seq<ExtraSlice>>, failed: bool)

  /** The inputs of the exposure pass. */
  datatype ExposureEnv = ExposureEnv(
    images: Folder,
    masks: Folder,
    frame: set<Pixel>,
    settings: SettingsId,
    unique: (string, string) -> string)

  /** One slice of `generate_exposure_images_from_folders` applied to the state `p`. */
  function ExposureStep(p: Pass, meta: Meta, env: ExposureEnv): (r: Pass)
    ensures r.done == p.done + [ExposedMeta(meta, env.images, env.masks, env.frame)]
  {
    match ExposureSplit(meta, env.images, env.masks, env.frame)
    case None => p.(done := p.done + [meta])
    case Some((rest, exposure)) =>
      var updated := meta.(imageData := Some(rest));
      if exposure == {} then p.(done := p.done + [updated])
      else
        var list := OrEmpty(p.extras);
        match meta.positionSettings
        case None => Pass(p.done + [updated], Some(list), true)
        case Some(ps) =>
          var name := env.unique(Paths.Stem(meta.imageName), "regional");
          Pass(p.done + [updated],
               Some(list + [ExtraSlice(name, exposure, meta.layerPosition, env.settings, None, ps)]), false)
  }

  /**
   * `generate_exposure_images_from_folders` over the slices `ms`, starting from the list
   * `extras`. A slice that exposes pixels but has no position settings raises a
   * `KeyError` after its image was rewritten; the pass stops there.
   */
  function ExposureRun(ms: seq<Meta>, extras: Option<seq<ExtraSlice>>, env: ExposureEnv): (p: Pass)
    ensures |p.done| <= |ms| && (!p.failed ==> |p.done| == |ms|) && (p.failed ==> |p.done| > 0)
    decreases |ms|
  {
    if |ms| == 0 then Pass([], extras, false)
    else
      var p := ExposureRun(ms[..|ms| - 1], extras, env);
      if p.failed then p else ExposureStep(p, ms[|ms| - 1], env)
  }

  /** Once the pass has raised, the later slices do not change its outcome. */
  lemma {:induction false} ExposureRunStops(ms: seq<Meta>, n: nat, extras: Option<seq<ExtraSlice>>, env: ExposureEnv)
    requires n <= |ms| && ExposureRun(ms[..n], extras, env).failed
    ensures ExposureRun(ms, extras, env) == ExposureRun(ms[..n], extras, env)
    decreases |ms| - n
  {
    if n < |ms| {
      assert ms[..n + 1][..n] == ms[..n];
      ExposureRunStops(ms, n + 1, extras, env);
    } else {
      assert ms[..n] == ms;
    }
  }

  /** The slices done are the inputs with their exposure split applied, in order. */
  lemma {:induction false} ExposureRunSlices(ms: seq<Meta>, extras: Option<seq<ExtraSlice>>, env: ExposureEnv)
    ensures var p := ExposureRun(ms, extras, env);
      forall k :: 0 <= k < |p.done| ==> p.done[k] == ExposedMeta(ms[k], env.images, env.masks, env.frame)
    decreases |ms|
  {
    if |ms| > 0 {
      ExposureRunSlices(ms[..|ms| - 1], extras, env);
    }
  }

  /**
   * The list keeps its old entries, and every entry the pass appends holds a non-empty
   * exposure image; the list is only created by a slice that exposes pixels.
   */
  lemma {:induction false} ExposureRunList(ms: seq<Meta>, extras: Option<seq<ExtraSlice>>, env: ExposureEnv)
    ensures var p := ExposureRun(ms, extras, env);
      OrEmpty(extras) <= OrEmpty(p.extras)
      && (forall k :: |OrEmpty(extras)| <= k < |OrEmpty(p.extras)| ==> OrEmpty(p.extras)[k].image != {})
      && ((forall k :: 0 <= k < |ms| ==> !Exposes(ms[k], env.images, env.masks, env.frame))
            ==> p.extras == extras && !p.failed)
      && ((exists k :: 0 <= k < |ms| && Exposes(ms[k], env.images, env.masks, env.frame)) ==> p.extras.Some?)
  {
    ExposureRunGrows(ms, extras, env);
    ExposureRunQuiet(ms, extras, env);
    ExposureRunCreates(ms, extras, env);
  }

  /** The list keeps its old entries and only gains entries with a non-empty image. */
  lemma {:induction false} ExposureRunGrows(ms: seq<Meta>, extras: Option<seq<ExtraSlice>>, env: ExposureEnv)
    ensures var p := ExposureRun(ms, extras, env);
      OrEmpty(extras) <= OrEmpty(p.extras)
      && forall k :: |OrEmpty(extras)| <= k < |OrEmpty(p.extras)| ==> OrEmpty(p.extras)[k].image != {}
    decreases |ms|
  {
    if |ms| > 0 {
      ExposureRunGrows(ms[..|ms| - 1], extras, env);
    }
  }

  /** Without a slice that exposes pixels, the list is left as it was and nothing raises. */
  lemma {:induction false} ExposureRunQuiet(ms: seq<Meta>, extras: Option<seq<ExtraSlice>>, env: ExposureEnv)
    ensures (forall k :: 0 <= k < |ms| ==> !Exposes(ms[k], env.images, env.masks, env.frame))
            ==> ExposureRun(ms, extras, env).extras == extras && !ExposureRun(ms, extras, env).failed
    decreases |ms|
  {
    if |ms| > 0 && forall k :: 0 <= k < |ms| ==> !Exposes(ms[k], env.images, env.masks, env.frame) {
      var front := ms[..|ms| - 1];
      assert forall k :: 0 <= k < |front| ==> front[k] == ms[k];
      ExposureRunQuiet(front, extras, env);
    }
  }

  /** A slice that exposes pixels creates the list; a raised pass has it too. */
  lemma {:induction false} ExposureRunCreates(ms: seq<Meta>, extras: Option<seq<ExtraSlice>>, env: ExposureEnv)
    ensures var p := ExposureRun(ms, extras, env);
      (p.failed ==> p.extras.Some?)
      && ((exists k :: 0 <= k < |ms| && Exposes(ms[k], env.images, env.masks, env.frame)) ==> p.extras.Some?)
    decreases |ms|
  {
    if |ms| > 0 {
      var front := ms[..|ms| - 1];
      ExposureRunCreates(front, extras, env);
      if exists k :: 0 <= k < |ms| && Exposes(ms[k], env.images, env.masks, env.frame) {
        var k :| 0 <= k < |ms| && Exposes(ms[k], env.images, env.masks, env.frame);
        if k < |ms| - 1 {
          assert front[k] == ms[k];
        }
      }
    }
  }

  /** A pass that raised stopped at a slice that exposes pixels but has no position settings. */
  lemma {:induction false} ExposureRunFailure(ms: seq<Meta>, extras: Option<seq<ExtraSlice>>, env: ExposureEnv)
    ensures var p := ExposureRun(ms, extras, env);
      p.failed ==> Exposes(ms[|p.done| - 1], env.images, env.masks, env.frame)
                   && ms[|p.done| - 1].positionSettings.None?
    decreases |ms|
  {
    if |ms| > 0 {
      var front := ms[..|ms| - 1];
      ExposureRunFailure(front, extras, env);
      var p := ExposureRun(front, extras, env);
      if p.failed {
        assert ms[|p.done| - 1] == front[|p.done| - 1];
      }
    }
  }

  /**
   * `generate_exposure_images_from_folders`: the slices are processed in order; the
   * metadata ends as `ExposureRun` describes, and the pass reports the `KeyError`.
   */
  method GenerateExposureImages(md: SliceMetadata, env: ExposureEnv) returns (r: Result<()>)
    modifies md
    ensures var p := ExposureRun(old(md.slices), old(md.exposureSlices), env);
      md.slices == p.done + old(md.slices)[|p.done|..] && md.exposureSlices == p.extras
      && (r.Err? <==> p.failed)
    ensures md.membraneSlices == old(md.membraneSlices) && md.secondarySlices == old(md.secondarySlices)
  {
    ghost var ms := md.slices;
    var i := 0;
    while i < |md.slices|
      invariant 0 <= i <= |md.slices| == |ms|
      invariant ExposureRun(ms[..i], old(md.exposureSlices), env) == Pass(md.slices[..i], md.exposureSlices, false)
      invariant md.slices[i..] == ms[i..]
      invariant md.membraneSlices == old(md.membraneSlices) && md.secondarySlices == old(md.secondarySlices)
    {
      ghost var pre := md.slices;
      SuffixNext(pre, ms, i);
      ExposureRunNext(ms, i, old(md.exposureSlices), env);
      var failed := ExposureSlice(md, i, env);
      assert ExposureRun(ms[..i + 1], old(md.exposureSlices), env) == Pass(md.slices[..i + 1], md.exposureSlices, failed);
      if failed {
        ExposureRunStops(ms, i + 1, old(md.exposureSlices), env);
        assert md.slices == md.slices[..i + 1] + ms[i + 1..];
        return Err("KeyError: 'position_settings'");
      }
      i := i + 1;
    }
    assert ms[..i] == ms && md.slices[..i] == md.slices;
    return Ok(());
  }

  /** The run over one more slice is one more `ExposureStep`, unless the run has already raised. */
  lemma ExposureRunNext(ms: seq<Meta>, i: nat, extras: Option<seq<ExtraSlice>>, env: ExposureEnv)
    requires i < |ms| && !ExposureRun(ms[..i], extras, env).failed
    ensures ExposureRun(ms[..i + 1], extras, env) == ExposureStep(ExposureRun(ms[..i], extras, env), ms[i], env)
  {
    assert ms[..i + 1][..i] == ms[..i];
    assert ms[..i + 1][i] == ms[i];
  }

  /** Equal suffixes from `i` agree at `i` and from `i + 1`. */
  lemma SuffixNext<T>(a: seq<T>, b: seq<T>, i: nat)
    requires i < |a| == |b| && a[i..] == b[i..]
    ensures a[i] == b[i] && a[i + 1..] == b[i + 1..]
  {
    assert a[i] == a[i..][0] && b[i] == b[i..][0];
    assert a[i + 1..] == a[i..][1..] && b[i + 1..] == b[i..][1..];
  }

  /** The loop body for slice `i`: one `ExposureStep` on the slices before it and the list. */
  method ExposureSlice(md: SliceMetadata, i: nat, env: ExposureEnv) returns (failed: bool)
    requires i < |md.slices|
    modifies md
    ensures |md.slices| == |old(md.slices)| && md.slices[i + 1..] == old(md.slices)[i + 1..]
    ensures ExposureStep(Pass(old(md.slices)[..i], old(md.exposureSlices), false), old(md.slices)[i], env)
            == Pass(md.slices[..i + 1], md.exposureSlices, failed)
    ensures md.membraneSlices == old(md.membraneSlices) && md.secondarySlices == old(md.secondarySlices)
  {
    var meta := md.slices[i];
    var mask := Read(env.masks, meta.imageName);
    if mask.None? || mask.value == {} {
      assert md.slices[..i + 1] == md.slices[..i] + [meta];
      return false;
    }
    var image := LoadImage(meta, env.images);
    if image.None? || image.value == {} {
      assert md.slices[..i + 1] == md.slices[..i] + [meta];
      return false;
    }
    var exposure := image.value * mask.value;
    var rest := image.value * Not(mask.value, env.frame);
    var updated := meta.(imageData := Some(rest));
    ghost var before := md.slices;
    md.slices := md.slices[i := updated];
    assert md.slices[..i + 1] == before[..i] + [updated] by {
      assert md.slices[..i] == before[..i];
    }
    assert md.slices[i + 1..] == before[i + 1..];
    if exposure != {} {
      var list := OrEmpty(md.exposureSlices);
      md.exposureSlices := Some(list);
      if meta.positionSettings.None? {
        return true;
      }
      var name := env.unique(Paths.Stem(meta.imageName), "regional");
      md.exposureSlices := Some(list + [ExtraSlice(name, exposure, meta.layerPosition, env.settings, None,
                                                   meta.positionSettings.value)]);
    }
    return false;
  }
}
