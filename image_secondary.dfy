/**
 * The secondary-dose pass of the openmfd slicer (`generate_secondary_images_from_folders`).
 *
 * For each slice with a lit mask, the pass adds the slice's membranes back, derives an
 * edge image (dilated minus eroded) and, when `roof_layers_above` is positive, a roof
 * image (the eroded slice without what the eroded slices of the window below cover).
 * Inside the mask the slice image keeps only its bulk; the edge and roof images go to
 * `secondary_slices`. The window of earlier slice images is the pass's running state.
 */
module SecondaryGeneration {
  import opened Wrappers
  import opened Numbers
  import opened PixelSets
  import opened ImageGeneration
  import Paths

  datatype SecondarySettings = SecondarySettings(
    edgeDose: Option<real>,
    erosionPx: nat,
    dilationPx: nat,
    roofDose: Option<real>,
    roofErosionPx: nat,
    layersAbove: nat,
    edgeExposure: SettingsId,
    roofExposure: SettingsId)

  /** The inputs of the pass; `membranes` is the `membrane_slices` list, which the pass only reads. */
  datatype SecondaryEnv = SecondaryEnv(
    images: Folder,
    masks: Folder,
    frame: set<Pixel>,
    morph: Morphology,
    settings: SecondarySettings,
    membranes: seq<ExtraSlice>,
    unique: (string, string) -> string)

  // ---------------------------------------------------------------------------------
  // Membranes of a slice
  // ---------------------------------------------------------------------------------

  /**
   * The regular expression `^<stem>_membrane.*\.png$` matches `name`: the `.*` part
   * holds no newline, and `$` may stand before one final newline.
   */
  predicate MembraneNameMatches(stem: string, name: string)
  {
    var body := if |name| > 0 && name[|name| - 1] == '\n' then name[..|name| - 1] else name;
    var prefix := stem + "_membrane";
    |body| >= |prefix| + 4 && body[..|prefix|] == prefix && body[|body| - 4..] == ".png"
    && '\n' !in body[|prefix|..|body| - 4]
  }

  /**
   * The membranes of the slice with stem `stem`, eroded back by their own dilation and
   * joined; a matching entry without `dilation_px` raises a `KeyError`, an unreadable
   * membrane file is skipped.
   */
  function MembraneUnion(recs: seq<ExtraSlice>, stem: string, images: Folder, morph: Morphology): (r: Result<Image>)
    ensures (forall k :: 0 <= k < |recs| ==> !MembraneNameMatches(stem, recs[k].imageName)) ==> r == Ok({})
    ensures (forall k :: 0 <= k < |recs| && MembraneNameMatches(stem, recs[k].imageName) ==>
               recs[k].dilationPx.Some?) ==> r.Ok?
    decreases |recs|
  {
    if |recs| == 0 then Ok({})
    else
      var front := recs[..|recs| - 1];
      var rec := recs[|recs| - 1];
      assert forall k :: 0 <= k < |front| ==> front[k] == recs[k];
      match MembraneUnion(front, stem, images, morph)
      case Err(e) => Err(e)
      case Ok(acc) =>
        if !MembraneNameMatches(stem, rec.imageName) then Ok(acc)
        else if rec.dilationPx.None? then Err("KeyError: 'dilation_px'")
        else
          match Read(images, rec.imageName)
          case None => Ok(acc)
          case Some(m) => Ok(acc + morph.erode(m, rec.dilationPx.value))
  }

  // ---------------------------------------------------------------------------------
  // Edge, roof and the window
  // ---------------------------------------------------------------------------------

  /** The edge image: the dilated slice minus the eroded slice, both without the membranes. */
  function EdgeImage(image: Image, membranes: Image, env: SecondaryEnv): (r: Image)
    ensures r * membranes == {}
    ensures Sound(env.morph, env.frame) ==> r <= env.frame
  {
    var eroded := env.morph.erode(image + membranes, env.settings.erosionPx) * Not(membranes, env.frame);
    var dilated := env.morph.dilate(image + membranes, env.settings.dilationPx) * Not(membranes, env.frame);
    dilated * Not(eroded, env.frame)
  }

  /** What the eroded window slices all cover, starting from the full frame. */
  function Cover(window: seq<Image>, env: SecondaryEnv): (r: Image)
    ensures r <= env.frame
    ensures |window| == 0 ==> r == env.frame
    decreases |window|
  {
    if |window| == 0 then env.frame
    else Cover(window[..|window| - 1], env) * env.morph.erode(window[|window| - 1], env.settings.roofErosionPx)
  }

  /**
   * The roof image: the eroded slice without what the window covers and without the
   * membranes.
   */
  function RoofImage(image: Image, window: seq<Image>, membranes: Image, env: SecondaryEnv): (r: Image)
    ensures r * membranes == {} && r * Cover(window, env) == {}
    ensures Sound(env.morph, env.frame) ==> r <= image
  {
    env.morph.erode(image, env.settings.roofErosionPx) * Not(Cover(window, env) + membranes, env.frame)
  }

  /** The window after a slice: the oldest entry dropped when full, the new image appended. */
  function NextWindow(window: seq<Image>, image: Image, layersAbove: nat): (r: seq<Image>)
    ensures layersAbove == 0 ==> r == window
    ensures layersAbove > 0 && |window| <= layersAbove ==> 0 < |r| <= layersAbove && r[|r| - 1] == image
  {
    var popped := if |window| >= layersAbove && layersAbove > 0 then window[1..] else window;
    if layersAbove > 0 then popped + [image] else popped
  }

  /** The last `n` entries of `s`, or all of them when there are fewer. */
  function Recent(s: seq<Image>, n: nat): (r: seq<Image>)
    ensures |r| == Min(|s|, n) && r == s[|s| - |r|..]
  {
    s[|s| - Min(|s|, n)..]
  }

  /** The window is always the most recent slice images. */
  lemma NextWindowRecent(s: seq<Image>, image: Image, n: nat)
    ensures NextWindow(Recent(s, n), image, n) == Recent(s + [image], n)
  {
    var t := s + [image];
    if n > 0 {
      if |s| >= n {
        assert Recent(s, n)[1..] + [image] == t[|t| - n..];
      } else {
        assert Recent(s, n) + [image] == t;
      }
    }
  }

  // ---------------------------------------------------------------------------------
  // Dose decision and masking
  // ---------------------------------------------------------------------------------

  /** The outcome of the dose branch. */
  datatype Doses = NoDose | DoseError | Kept(edge: Option<Image>, roof: Option<Image>)

  /**
   * The dose branch: no dose skips the slice; a missing dose drops that image; with
   * both doses the image of the lower dose keeps the shared pixels, the roof on a tie
   * (an edge dose at least the roof dose takes the roof's pixels out of the edge).
   * A roof is needed then: without one (`roof_layers_above` is 0) OpenCV rejects the
   * missing image.
   */
  function DoseSplit(edge: Image, roof: Option<Image>, edgeDose: Option<real>, roofDose: Option<real>,
                     frame: set<Pixel>): (r: Doses)
    ensures r.NoDose? <==> edgeDose.None? && roofDose.None?
    ensures r.DoseError? <==> edgeDose.Some? && roofDose.Some? && roof.None?
    ensures edgeDose.None? && roofDose.Some? ==> r == Kept(None, roof)
    ensures edgeDose.Some? && roofDose.None? ==> r == Kept(Some(edge), None)
    ensures r.Kept? && edgeDose.Some? && roofDose.Some? ==>
      r.edge.Some? && r.roof.Some? && r.edge.value * r.roof.value == {}
    ensures r.Kept? && edgeDose.Some? && roofDose.Some? && edgeDose.value >= roofDose.value ==>
      r.roof == roof && r.edge.value <= edge && (edge <= frame ==> edge - roof.value <= r.edge.value)
    ensures r.Kept? && edgeDose.Some? && roofDose.Some? && edgeDose.value < roofDose.value ==>
      r.edge == Some(edge) && r.roof.value <= roof.value
      && (roof.value <= frame ==> roof.value - edge <= r.roof.value)
  {
    if roofDose.None? && edgeDose.None? then NoDose
    else if edgeDose.None? then Kept(None, roof)
    else if roofDose.None? then Kept(Some(edge), None)
    else if roof.None? then DoseError
    else if edgeDose.value >= roofDose.value then Kept(Some(edge * Not(roof.value, frame)), roof)
    else Kept(Some(edge), Some(roof.value * Not(edge, frame)))
  }

  /** An image, or `None` when it has no lit pixel. */
  function NonEmpty(img: Image): (r: Option<Image>)
    ensures r.Some? <==> img != {}
    ensures r.Some? ==> r.value == img
  {
    if img == {} then None else Some(img)
  }

  /** The images as they are written: bulk, edge and roof, each `None` when dark. */
  datatype Outputs = Outputs(bulk: Option<Image>, edge: Option<Image>, roof: Option<Image>)

  /** The bulk, edge and roof images after masking. */
  function MaskOutputs(image: Image, mask: Image, bulk: Image, edge: Option<Image>, roof: Option<Image>,
                       frame: set<Pixel>): (o: Outputs)
    ensures o.edge.Some? ==> edge.Some? && o.edge.value != {} && o.edge.value <= mask && o.edge.value <= edge.value
    ensures o.roof.Some? ==> roof.Some? && o.roof.value != {} && o.roof.value <= mask && o.roof.value <= roof.value
    ensures image <= frame ==>
      (if o.bulk.Some? then o.bulk.value else {}) - mask == image - mask
    ensures (if o.bulk.Some? then o.bulk.value else {}) * mask == bulk * mask
  {
    var outside := image * Not(mask, frame);
    var inside := bulk * mask;
    Outputs(NonEmpty(outside + inside),
            if edge.Some? then NonEmpty(edge.value * mask) else None,
            if roof.Some? then NonEmpty(roof.value * mask) else None)
  }

  /**
   * With both doses set and a roof present, the written edge and roof images are
   * disjoint and lie in the mask, and outside the mask the bulk image is the slice image.
   */
  lemma BothDosesOutputs(image: Image, mask: Image, bulk: Image, edge: Image, roof: Image,
                         edgeDose: real, roofDose: real, frame: set<Pixel>)
    requires image <= frame
    ensures var d := DoseSplit(edge, Some(roof), Some(edgeDose), Some(roofDose), frame);
      d.Kept? &&
      var o := MaskOutputs(image, mask, bulk, d.edge, d.roof, frame);
      (o.edge.Some? && o.roof.Some? ==> o.edge.value * o.roof.value == {})
      && (o.edge.Some? ==> o.edge.value <= mask) && (o.roof.Some? ==> o.roof.value <= mask)
      && (if o.bulk.Some? then o.bulk.value else {}) - mask == image - mask
  {
    var d := DoseSplit(edge, Some(roof), Some(edgeDose), Some(roofDose), frame);
    var o := MaskOutputs(image, mask, bulk, d.edge, d.roof, frame);
    if o.edge.Some? && o.roof.Some? {
      assert o.edge.value * o.roof.value <= d.edge.value * d.roof.value;
    }
  }

  // ---------------------------------------------------------------------------------
  // The pass
  // ---------------------------------------------------------------------------------

  /** The pass state: the slices as updated in place, the window, `secondary_slices`, a raised error. */
  datatype SecPass = SecPass(slices: seq<Meta>, window: seq<Image>, extras: Option<seq<ExtraSlice>>, failed: bool)

  /** The slice image, when the slice gets as far as the window update. */
  function Reached(meta: Meta, env: SecondaryEnv): (r: Option<Image>)
    ensures r.Some? ==> LitMask(env.masks, meta.imageName) && LoadImage(meta, env.images) == r
  {
    if !LitMask(env.masks, meta.imageName) then None
    else match LoadImage(meta, env.images)
      case None => None
      case Some(image) =>
        if MembraneUnion(env.membranes, Paths.Stem(meta.imageName), env.images, env.morph).Err? then None
        else Some(image)
  }

  /** Appends the edge and roof entries; a missing `position_settings` raises. */
  function Emit(q: SecPass, meta: Meta, out: Outputs, env: SecondaryEnv): (r: SecPass)
    requires q.extras.Some? && !q.failed
    requires out.edge.Some? ==> out.edge.value != {}
    requires out.roof.Some? ==> out.roof.value != {}
    ensures r.slices == q.slices && r.window == q.window && r.extras.Some?
    ensures q.extras.value <= r.extras.value && |r.extras.value| <= |q.extras.value| + 2
    ensures r.failed <==> (out.edge.Some? || out.roof.Some?) && meta.positionSettings.None?
    ensures forall k :: |q.extras.value| <= k < |r.extras.value| ==>
      r.extras.value[k].image != {}
      && (r.extras.value[k].image == OrEmptyImage(out.edge) || r.extras.value[k].image == OrEmptyImage(out.roof))
  {
    var stem := Paths.Stem(meta.imageName);
    if out.edge.Some? && meta.positionSettings.None? then q.(failed := true)
    else
      var withEdge :=
        if out.edge.Some? then
          q.extras.value + [ExtraSlice(env.unique(stem, "edge"), out.edge.value, meta.layerPosition,
                                       env.settings.edgeExposure, None, meta.positionSettings.value)]
        else q.extras.value;
      if out.roof.Some? && meta.positionSettings.None? then q.(extras := Some(withEdge), failed := true)
      else if out.roof.Some? then
        q.(extras := Some(withEdge + [ExtraSlice(env.unique(stem, "roof"), out.roof.value, meta.layerPosition,
                                                 env.settings.roofExposure, None, meta.positionSettings.value)]))
      else q.(extras := Some(withEdge))
  }

  /** The image of an optional output, empty when absent. */
  function OrEmptyImage(img: Option<Image>): Image
  {
    if img.Some? then img.value else {}
  }

  /**
   * Slice `i` once its mask is lit, its image loaded and its membranes read: the window
   * moves on, the dose branch decides, and the masked outputs are written. Only the
   * image of slice `i` may change, only inside the mask, and every new entry of
   * `secondary_slices` is a lit part of the mask.
   */
  function Processed(p: SecPass, i: nat, image: Image, membranes: Image, mask: Image, env: SecondaryEnv): (r: SecPass)
    requires i < |p.slices| && !p.failed
    ensures |r.slices| == |p.slices| && r.slices == p.slices[i := r.slices[i]]
    ensures r.slices[i] == p.slices[i].(imageData := r.slices[i].imageData)
    ensures r.slices[i] != p.slices[i] ==>
      r.slices[i].imageData.Some? && (image <= env.frame ==> r.slices[i].imageData.value - mask == image - mask)
    ensures r.window == NextWindow(p.window, image, env.settings.layersAbove)
    ensures OrEmpty(p.extras) <= OrEmpty(r.extras)
    ensures forall k :: |OrEmpty(p.extras)| <= k < |OrEmpty(r.extras)| ==>
      OrEmpty(r.extras)[k].image != {} && OrEmpty(r.extras)[k].image <= mask
  {
    var meta := p.slices[i];
    var window := NextWindow(p.window, image, env.settings.layersAbove);
    var edge := EdgeImage(image, membranes, env);
    var roof := if env.settings.layersAbove > 0 then Some(RoofImage(image, p.window, membranes, env)) else None;
    var bulk := image * Not(edge + OrEmptyImage(roof), env.frame);
    match DoseSplit(edge, roof, env.settings.edgeDose, env.settings.roofDose, env.frame)
    case NoDose => p.(window := window)
    case DoseError => p.(window := window, failed := true)
    case Kept(e, rf) =>
      var out := MaskOutputs(image, mask, bulk, e, rf, env.frame);
      var updated :=
        if out.bulk.Some? && out.bulk.value != image then meta.(imageData := Some(out.bulk.value)) else meta;
      Emit(SecPass(p.slices[i := updated], window, Some(OrEmpty(p.extras)), false), meta, out, env)
  }

  /** Slice `i` of `generate_secondary_images_from_folders` applied to the state `p`. */
  function SecondaryStep(p: SecPass, i: nat, env: SecondaryEnv): (r: SecPass)
    requires i < |p.slices| && !p.failed
    ensures |r.slices| == |p.slices| && r.slices == p.slices[i := r.slices[i]]
    ensures r.slices[i] == p.slices[i].(imageData := r.slices[i].imageData)
    ensures Reached(p.slices[i], env).None? ==> r.window == p.window
    ensures Reached(p.slices[i], env).Some? ==>
      r.window == NextWindow(p.window, Reached(p.slices[i], env).value, env.settings.layersAbove)
  {
    var meta := p.slices[i];
    if !LitMask(env.masks, meta.imageName) then p
    else match LoadImage(meta, env.images)
      case None => p
      case Some(image) =>
        match MembraneUnion(env.membranes, Paths.Stem(meta.imageName), env.images, env.morph)
        case Err(_) => p.(failed := true)
        case Ok(membranes) => Processed(p, i, image, membranes, Read(env.masks, meta.imageName).value, env)
  }

  /** The pass over the first `n` slices of `p0`. */
  function SecondaryRun(p0: SecPass, n: nat, env: SecondaryEnv): (p: SecPass)
    requires n <= |p0.slices| && !p0.failed
    ensures |p.slices| == |p0.slices|
    ensures forall k :: n <= k < |p.slices| ==> p.slices[k] == p0.slices[k]
    decreases n
  {
    if n == 0 then p0
    else
      var p := SecondaryRun(p0, n - 1, env);
      if p.failed then p else SecondaryStep(p, n - 1, env)
  }

  /** The images of the first `n` slices that reached the window update, in order. */
  function ReachedImages(ms: seq<Meta>, n: nat, env: SecondaryEnv): (r: seq<Image>)
    requires n <= |ms|
    ensures |r| <= n
    decreases n
  {
    if n == 0 then []
    else
      var front := ReachedImages(ms, n - 1, env);
      match Reached(ms[n - 1], env)
      case None => front
      case Some(image) => front + [image]
  }

  /**
   * While the pass runs, its window holds the most recent `roof_layers_above` slice
   * images: never more than that, and nothing when it is 0.
   */
  lemma {:induction false} WindowIsRecent(ms: seq<Meta>, n: nat, extras: Option<seq<ExtraSlice>>, env: SecondaryEnv)
    requires n <= |ms|
    ensures var p := SecondaryRun(SecPass(ms, [], extras, false), n, env);
      !p.failed ==> p.window == Recent(ReachedImages(ms, n, env), env.settings.layersAbove)
    ensures |SecondaryRun(SecPass(ms, [], extras, false), n, env).window| <= env.settings.layersAbove
    ensures env.settings.layersAbove == 0 ==> SecondaryRun(SecPass(ms, [], extras, false), n, env).window == []
    decreases n
  {
    if n > 0 {
      WindowIsRecent(ms, n - 1, extras, env);
      var p0 := SecPass(ms, [], extras, false);
      var p := SecondaryRun(p0, n - 1, env);
      if !p.failed {
        assert p.slices[n - 1] == ms[n - 1];
        var q := SecondaryStep(p, n - 1, env);
        assert SecondaryRun(p0, n, env) == q;
        var front := ReachedImages(ms, n - 1, env);
        var L := env.settings.layersAbove;
        match Reached(ms[n - 1], env)
        case None =>
          assert ReachedImages(ms, n, env) == front;
        case Some(image) =>
          assert ReachedImages(ms, n, env) == front + [image];
          NextWindowRecent(front, image, L);
          assert q.window == Recent(front + [image], L);
      }
    }
  }

  /**
   * Every slice keeps its name, position and settings; a slice whose image the pass
   * replaced had a lit mask, and its new image agrees with the old one outside the mask.
   */
  lemma {:induction false} SecondaryRunSlices(ms: seq<Meta>, n: nat, extras: Option<seq<ExtraSlice>>, env: SecondaryEnv)
    requires n <= |ms|
    requires forall k :: 0 <= k < |ms| && LoadImage(ms[k], env.images).Some? ==> LoadImage(ms[k], env.images).value <= env.frame
    ensures var p := SecondaryRun(SecPass(ms, [], extras, false), n, env);
      forall k :: 0 <= k < |ms| ==> SliceOutcome(ms[k], p.slices[k], k < n, env)
    decreases n
  {
    if n > 0 {
      var p0 := SecPass(ms, [], extras, false);
      SecondaryRunSlices(ms, n - 1, extras, env);
      var p := SecondaryRun(p0, n - 1, env);
      var r := SecondaryRun(p0, n, env);
      var i := n - 1;
      assert p.slices[i] == ms[i];
      if !p.failed {
        SecondaryStepChanges(p, i, env);
        SecondaryRunNext(p0, n, env);
        assert r.slices == SecondaryStep(p, i, env).slices;
      } else {
        assert r == p;
        assert p.slices[i := p.slices[i]] == p.slices;
        assert p.slices[i].(imageData := p.slices[i].imageData) == p.slices[i];
      }
      OutcomesAdvance(ms, p.slices, r.slices, i, env);
    }
  }

  /** The pass over one more slice is one more step, unless it has already raised. */
  lemma SecondaryRunNext(p0: SecPass, n: nat, env: SecondaryEnv)
    requires 0 < n <= |p0.slices| && !p0.failed && !SecondaryRun(p0, n - 1, env).failed
    ensures SecondaryRun(p0, n, env) == SecondaryStep(SecondaryRun(p0, n - 1, env), n - 1, env)
  {
  }

  /**
   * What the pass may have done to slice `m`, ending as `out`: at most its image data
   * changed, and only when the slice was `touched`, had a lit mask and a readable image;
   * the new data agrees with the image outside the mask.
   */
  ghost predicate SliceOutcome(m: Meta, out: Meta, touched: bool, env: SecondaryEnv)
  {
    out == m.(imageData := out.imageData)
    && (out != m ==>
          touched && LitMask(env.masks, m.imageName) && LoadImage(m, env.images).Some?
          && out.imageData.Some?
          && out.imageData.value - Read(env.masks, m.imageName).value
             == LoadImage(m, env.images).value - Read(env.masks, m.imageName).value)
  }

  /** A step that changes at most slice `i`, as `SliceOutcome` allows, extends the outcomes to slice `i`. */
  lemma OutcomesAdvance(ms: seq<Meta>, before: seq<Meta>, after: seq<Meta>, i: nat, env: SecondaryEnv)
    requires |before| == |after| == |ms| && i < |ms|
    requires forall k :: 0 <= k < |ms| ==> SliceOutcome(ms[k], before[k], k < i, env)
    requires after == before[i := after[i]]
    requires before[i] == ms[i] && SliceOutcome(ms[i], after[i], true, env)
    ensures forall k :: 0 <= k < |ms| ==> SliceOutcome(ms[k], after[k], k < i + 1, env)
  {
    forall k | 0 <= k < |ms| ensures SliceOutcome(ms[k], after[k], k < i + 1, env) {
      if k != i {
        assert after[k] == before[k] && SliceOutcome(ms[k], before[k], k < i, env);
      }
    }
  }

  /** One step changes at most slice `i`, as `SliceOutcome` allows. */
  lemma SecondaryStepChanges(p: SecPass, i: nat, env: SecondaryEnv)
    requires i < |p.slices| && !p.failed
    requires LoadImage(p.slices[i], env.images).Some? ==> LoadImage(p.slices[i], env.images).value <= env.frame
    ensures SecondaryStep(p, i, env).slices == p.slices[i := SecondaryStep(p, i, env).slices[i]]
    ensures SliceOutcome(p.slices[i], SecondaryStep(p, i, env).slices[i], true, env)
  {
    var meta := p.slices[i];
    if LitMask(env.masks, meta.imageName) && LoadImage(meta, env.images).Some? {
      var image := LoadImage(meta, env.images).value;
      var u := MembraneUnion(env.membranes, Paths.Stem(meta.imageName), env.images, env.morph);
      if u.Ok? {
        var r := Processed(p, i, image, u.value, Read(env.masks, meta.imageName).value, env);
        assert SecondaryStep(p, i, env) == r;
      }
    }
  }

  /** Once the pass has raised, the later slices do not change its outcome. */
  lemma {:induction false} SecondaryRunStops(p0: SecPass, n: nat, m: nat, env: SecondaryEnv)
    requires n <= m <= |p0.slices| && !p0.failed && SecondaryRun(p0, n, env).failed
    ensures SecondaryRun(p0, m, env) == SecondaryRun(p0, n, env)
    decreases m - n
  {
    if n < m {
      SecondaryRunStops(p0, n + 1, m, env);
    }
  }

  /**
   * `generate_secondary_images_from_folders`: the slices are processed in order with a
   * window of earlier slice images; the metadata ends as `SecondaryRun` describes.
   */
  method GenerateSecondaryImages(md: SliceMetadata, env: SecondaryEnv) returns (r: Result<()>)
    requires env.membranes == OrEmpty(md.membraneSlices)
    modifies md
    ensures var p := SecondaryRun(SecPass(old(md.slices), [], old(md.secondarySlices), false), |old(md.slices)|, env);
      md.slices == p.slices && md.secondarySlices == p.extras && (r.Err? <==> p.failed)
    ensures md.exposureSlices == old(md.exposureSlices) && md.membraneSlices == old(md.membraneSlices)
  {
    ghost var p0 := SecPass(md.slices, [], md.secondarySlices, false);
    var n := |md.slices|;
    var prevImages: seq<Image> := [];
    var i := 0;
    while i < n
      invariant 0 <= i <= n == |md.slices| == |p0.slices|
      invariant SecondaryRun(p0, i, env) == SecPass(md.slices, prevImages, md.secondarySlices, false)
      invariant md.exposureSlices == old(md.exposureSlices) && md.membraneSlices == old(md.membraneSlices)
    {
      ghost var before := SecPass(md.slices, prevImages, md.secondarySlices, false);
      var failed;
      prevImages, failed := SecondarySlice(md, i, prevImages, env);
      assert SecondaryStep(before, i, env) == SecPass(md.slices, prevImages, md.secondarySlices, failed);
      if failed {
        SecondaryRunStops(p0, i + 1, n, env);
        return Err("secondary image generation raised");
      }
      i := i + 1;
    }
    return Ok(());
  }

  /** The loop body for slice `i`: one `SecondaryStep` on the metadata and the window. */
  method SecondarySlice(md: SliceMetadata, i: nat, prevImages: seq<Image>, env: SecondaryEnv)
    returns (window: seq<Image>, failed: bool)
    requires i < |md.slices|
    modifies md
    ensures SecondaryStep(SecPass(old(md.slices), prevImages, old(md.secondarySlices), false), i, env)
         == SecPass(md.slices, window, md.secondarySlices, failed)
    ensures md.exposureSlices == old(md.exposureSlices) && md.membraneSlices == old(md.membraneSlices)
  {
    var meta := md.slices[i];
    window := prevImages;
    failed := false;
    var mask := Read(env.masks, meta.imageName);
    if mask.None? || mask.value == {} {
      return;
    }
    var image := LoadImage(meta, env.images);
    if image.None? {
      return;
    }
    var membranes := MembraneUnion(env.membranes, Paths.Stem(meta.imageName), env.images, env.morph);
    if membranes.Err? {
      failed := true;
      return;
    }
    ghost var st := SecPass(md.slices, prevImages, md.secondarySlices, false);
    assert SecondaryStep(st, i, env) == Processed(st, i, image.value, membranes.value, mask.value, env);
    window, failed := ProcessSlice(md, i, image.value, membranes.value, mask.value, prevImages, env);
  }

  /** The loop body once the slice's image and membranes are at hand. */
  method ProcessSlice(md: SliceMetadata, i: nat, image: Image, membranes: Image, mask: Image,
                      prevImages: seq<Image>, env: SecondaryEnv)
    returns (window: seq<Image>, failed: bool)
    requires i < |md.slices|
    modifies md
    ensures Processed(SecPass(old(md.slices), prevImages, old(md.secondarySlices), false), i, image, membranes, mask, env)
         == SecPass(md.slices, window, md.secondarySlices, failed)
    ensures md.exposureSlices == old(md.exposureSlices) && md.membraneSlices == old(md.membraneSlices)
  {
    var meta := md.slices[i];
    failed := false;
    var edge := EdgeImage(image, membranes, env);
    var roof: Option<Image> := None;
    if env.settings.layersAbove > 0 {
      roof := Some(RoofImage(image, prevImages, membranes, env));
    }
    window := prevImages;
    if |window| >= env.settings.layersAbove && env.settings.layersAbove > 0 {
      window := window[1..];
    }
    if env.settings.layersAbove > 0 {
      window := window + [image];
    }
    var bulk := image * Not(edge + OrEmptyImage(roof), env.frame);
    var doses := DoseSplit(edge, roof, env.settings.edgeDose, env.settings.roofDose, env.frame);
    if doses.NoDose? {
      return;
    }
    if doses.DoseError? {
      failed := true;
      return;
    }
    var out := MaskOutputs(image, mask, bulk, doses.edge, doses.roof, env.frame);
    md.secondarySlices := Some(OrEmpty(md.secondarySlices));
    if out.bulk.Some? && out.bulk.value != image {
      md.slices := md.slices[i := meta.(imageData := Some(out.bulk.value))];
    }
    failed := EmitSlice(md, meta, out, env);
  }

  /** Appends the edge and roof entries of one slice to `secondary_slices`. */
  method EmitSlice(md: SliceMetadata, meta: Meta, out: Outputs, env: SecondaryEnv) returns (failed: bool)
    requires md.secondarySlices.Some?
    requires out.edge.Some? ==> out.edge.value != {}
    requires out.roof.Some? ==> out.roof.value != {}
    modifies md
    ensures var e := Emit(SecPass([], [], old(md.secondarySlices), false), meta, out, env);
      md.secondarySlices == e.extras && failed == e.failed
    ensures md.slices == old(md.slices) && md.exposureSlices == old(md.exposureSlices)
      && md.membraneSlices == old(md.membraneSlices)
  {
    failed := false;
    var stem := Paths.Stem(meta.imageName);
    if out.edge.Some? {
      if meta.positionSettings.None? {
        failed := true;
        return;
      }
      md.secondarySlices := Some(md.secondarySlices.value + [ExtraSlice(env.unique(stem, "edge"), out.edge.value,
        meta.layerPosition, env.settings.edgeExposure, None, meta.positionSettings.value)]);
    }
    if out.roof.Some? {
      if meta.positionSettings.None? {
        failed := true;
        return;
      }
      md.secondarySlices := Some(md.secondarySlices.value + [ExtraSlice(env.unique(stem, "roof"), out.roof.value,
        meta.layerPosition, env.settings.roofExposure, None, meta.positionSettings.value)]);
    }
  }
}
