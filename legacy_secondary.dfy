/**
 * The legacy `generate_secondary_images` of `pymfd`: for the layers named in
 * `layers_to_check`, the slice image is replaced by a primary (dilated) image and a
 * secondary image, or by primary, secondary and tertiary images when edge and roof get
 * two different doses. The roof part looks at the eroded images of up to
 * `layers_above` earlier slices, read from the in-memory list of original images.
 */
module LegacySecondary {
  import opened Wrappers
  import opened Numbers
  import opened PixelSets
  import opened LegacyCommon

  datatype LegacySettings = LegacySettings(
    edgeEnabled: bool,
    roofEnabled: bool,
    narrowPx: nat,
    widenPx: nat,
    membraneWidenPx: nat,
    roofWidenPx: nat,
    layersAbove: int,
    roofDose: real,
    edgeDose: real,
    bulkDose: real,
    layersToCheck: Option<seq<int>>)

  /** The slices folder's membrane files by name, the image frame and the morphology. */
  datatype LegacyEnv = LegacyEnv(frame: set<Pixel>, morph: Morphology, membraneFiles: map<string, Image>,
                                 settings: LegacySettings)

  // ---------------------------------------------------------------------------------
  // The window of earlier layers
  // ---------------------------------------------------------------------------------

  /** The lowest earlier slice the roof loop reaches from slice `i`. */
  function RoofStart(i: nat, layersAbove: int): (lo: nat)
    ensures lo <= i
    ensures layersAbove >= 0 ==> i - lo == Min(i, layersAbove)
    ensures layersAbove <= 0 ==> lo == i
  {
    if layersAbove <= 0 then i else if i - layersAbove > 0 then i - layersAbove else 0
  }

  /** The roof image of a slice: one eroded earlier image. */
  function RoofEroded(img: Image, env: LegacyEnv): Image
  {
    env.morph.erode(img, env.settings.roofWidenPx)
  }

  /**
   * The loop `while j > 0 and j > i - layers_above: j -= 1; ...` from `j` down: with
   * `conj` each eroded earlier image is intersected in, otherwise the complement of
   * each is joined in.
   */
  function RoofDown(acc: Image, earlier: seq<Image>, j: nat, i: nat, conj: bool, env: LegacyEnv): (r: Image)
    requires j <= |earlier|
    decreases j
  {
    if j > 0 && j > i - env.settings.layersAbove then
      var e := RoofEroded(earlier[j - 1], env);
      RoofDown(if conj then acc * e else acc + Not(e, env.frame), earlier, j - 1, i, conj, env)
    else acc
  }

  /**
   * From slice `i`, the loop visits exactly the earlier slices `RoofStart(i, L) .. i - 1`
   * (`min(i, L)` of them): the intersection keeps the pixels every eroded one has, the
   * union adds the pixels some eroded one lacks.
   */
  lemma {:induction false} RoofDownMembers(acc: Image, earlier: seq<Image>, j: nat, i: nat, conj: bool,
                                           env: LegacyEnv, p: Pixel)
    requires RoofStart(i, env.settings.layersAbove) <= j <= i && j <= |earlier|
    ensures var lo := RoofStart(i, env.settings.layersAbove);
      conj ==> (p in RoofDown(acc, earlier, j, i, conj, env)
                <==> p in acc && forall k :: lo <= k < j ==> p in RoofEroded(earlier[k], env))
    ensures var lo := RoofStart(i, env.settings.layersAbove);
      !conj ==> (p in RoofDown(acc, earlier, j, i, conj, env)
                 <==> p in acc || exists k :: lo <= k < j && p in env.frame && p !in RoofEroded(earlier[k], env))
    decreases j
  {
    var lo := RoofStart(i, env.settings.layersAbove);
    if j > lo {
      var e := RoofEroded(earlier[j - 1], env);
      var next := if conj then acc * e else acc + Not(e, env.frame);
      RoofDownMembers(next, earlier, j - 1, i, conj, env, p);
      if !conj && p in RoofDown(acc, earlier, j, i, conj, env) && p !in acc {
        if p in next && p !in acc {
          assert lo <= j - 1 < j && p in env.frame && p !in e;
        }
      }
    }
  }

  /** The roof loop as the source runs it, with `j` counting down. */
  method RoofLoop(acc: Image, earlier: seq<Image>, i: nat, conj: bool, env: LegacyEnv) returns (r: Image)
    requires i == |earlier|
    ensures r == RoofDown(acc, earlier, i, i, conj, env)
  {
    r := acc;
    var j: nat := i;
    while j > 0 && j > i - env.settings.layersAbove
      invariant j <= i
      invariant RoofDown(r, earlier, j, i, conj, env) == RoofDown(acc, earlier, i, i, conj, env)
      decreases j
    {
      j := j - 1;
      var e := RoofEroded(earlier[j], env);
      if conj {
        r := r * e;
      } else {
        r := r + Not(e, env.frame);
      }
    }
  }

  // ---------------------------------------------------------------------------------
  // One layer
  // ---------------------------------------------------------------------------------

  /** The membrane file beside the slice file `name`, eroded back, when there is one. */
  function MembraneOf(name: string, env: LegacyEnv): (r: Option<Image>)
    ensures r.Some? <==> BesideName(name, MembraneFile) in env.membraneFiles
  {
    var path := BesideName(name, MembraneFile);
    if path in env.membraneFiles then Some(env.morph.erode(env.membraneFiles[path], env.settings.membraneWidenPx))
    else None
  }

  /** The eroded and dilated slice, with the membrane added before and taken out after. */
  datatype Shapes = Shapes(eroded: Image, dilated: Image)

  function LayerShapes(image: Image, name: string, env: LegacyEnv): (sh: Shapes)
    ensures MembraneOf(name, env).Some? ==>
      sh.eroded * MembraneOf(name, env).value == {} && sh.dilated * MembraneOf(name, env).value == {}
  {
    var m := MembraneOf(name, env);
    var img := if m.Some? then image + m.value else image;
    var eroded := env.morph.erode(img, env.settings.widenPx);
    var dilated := env.morph.dilate(img, env.settings.narrowPx);
    if m.Some? then Shapes(eroded - m.value, dilated - m.value) else Shapes(eroded, dilated)
  }

  /** Only primary and secondary images: equal doses, or edge or roof switched off. */
  predicate TwoImageMode(s: LegacySettings)
  {
    s.edgeDose == s.roofDose || !s.roofEnabled || !s.edgeEnabled
  }

  /** The dose of the secondary image in two-image mode. */
  function SecondaryDose(s: LegacySettings): real
  {
    if !s.edgeEnabled then s.roofDose else s.edgeDose
  }

  /** The secondary image of two-image mode, before the roof loop. */
  function TwoImageBase(sh: Shapes, s: LegacySettings): (r: Image)
  {
    if SecondaryDose(s) < s.bulkDose then sh.eroded else sh.dilated - sh.eroded
  }

  /** Two-image mode: nothing when the doses agree, a dark or unchanged secondary is not written. */
  function TwoImage(name: string, i: nat, earlier: seq<Image>, sh: Shapes, env: LegacyEnv): (r: Outcome)
    requires i == |earlier|
    ensures SecondaryDose(env.settings) == env.settings.bulkDose ==> r == Continue
    ensures r.Proceed? ==>
      (|r.ops| == 3 && r.ops[0] == WriteBeside(name, PrimaryFile, sh.dilated)
       && r.ops[1].WriteBeside? && r.ops[1].slice == name && r.ops[1].kind == SecondaryFile
       && r.ops[1].image != {} && r.ops[1].image != sh.dilated && r.ops[2] == Remove(name))
  {
    var s := env.settings;
    var sec := SecondaryDose(s);
    if sec == s.bulkDose then Continue
    else
      var primary := sh.dilated;
      var base := TwoImageBase(sh, s);
      var secondary := if s.roofEnabled then RoofDown(base, earlier, i, i, sec < s.bulkDose, env) else base;
      if secondary == {} || secondary == primary then Continue
      else
        Proceed([WriteBeside(name, PrimaryFile, primary), WriteBeside(name, SecondaryFile, secondary), Remove(name)])
  }

  /** The roof image of three-image mode. */
  function ThreeRoof(earlier: seq<Image>, i: nat, sh: Shapes, env: LegacyEnv): Image
    requires i == |earlier|
  {
    RoofDown(sh.dilated, earlier, i, i, true, env)
  }

  /** The secondary image of three-image mode. */
  function ThreeSecondary(sh: Shapes, roof: Image, s: LegacySettings): Image
  {
    if s.bulkDose > s.roofDose && s.edgeDose > s.roofDose then roof
    else if s.bulkDose > s.edgeDose then sh.eroded
    else sh.dilated - (sh.eroded * roof)
  }

  /** The tertiary image of three-image mode. */
  function ThreeTertiary(sh: Shapes, roof: Image, s: LegacySettings): Image
  {
    if s.roofDose > s.bulkDose && s.roofDose > s.edgeDose then sh.dilated - roof
    else if s.bulkDose > s.edgeDose then sh.eroded * roof
    else sh.dilated - sh.eroded
  }

  /** A write of a lit image beside the slice `name`; a dark one is not written. */
  function WriteLit(name: string, kind: Beside, img: Image): (r: seq<FileOp>)
    ensures img == {} <==> r == []
    ensures forall k :: 0 <= k < |r| ==> r[k] == WriteBeside(name, kind, img) && img != {}
  {
    if img == {} then [] else [WriteBeside(name, kind, img)]
  }

  /** Three-image mode: skipped only when the three images agree. */
  function ThreeImage(name: string, i: nat, earlier: seq<Image>, sh: Shapes, env: LegacyEnv): (r: Outcome)
    requires i == |earlier|
    ensures r.Proceed? ==> |r.ops| >= 1 && r.ops[|r.ops| - 1] == Remove(name)
  {
    var s := env.settings;
    var roof := ThreeRoof(earlier, i, sh, env);
    var primary := sh.dilated;
    var secondary := ThreeSecondary(sh, roof, s);
    var tertiary := ThreeTertiary(sh, roof, s);
    if primary == secondary && secondary == tertiary then Continue
    else
      Proceed(WriteLit(name, PrimaryFile, primary) + WriteLit(name, SecondaryFile, secondary)
              + WriteLit(name, TertiaryFile, tertiary) + [Remove(name)])
  }

  /**
   * Image `i` named `name`: a name without digits raises; a layer outside
   * `layers_to_check` only reports progress; otherwise two- or three-image mode.
   */
  function Layer(i: nat, name: string, image: Image, earlier: seq<Image>, env: LegacyEnv): (r: Result<Outcome>)
    requires i == |earlier|
    ensures r.Err? <==> LayerNumber(name).None?
    ensures r.Ok? && !InLayers(env.settings.layersToCheck, LayerNumber(name)) ==> r == Ok(Proceed([]))
  {
    var num := LayerNumber(name);
    if num.None? then Err(NoDigitsError)
    else if !InLayers(env.settings.layersToCheck, num) then Ok(Proceed([]))
    else
      var sh := LayerShapes(image, name, env);
      if TwoImageMode(env.settings) then Ok(TwoImage(name, i, earlier, sh, env))
      else Ok(ThreeImage(name, i, earlier, sh, env))
  }

  /** The outcome of every image, each seeing the original images before it. */
  function Outcomes(names: seq<string>, images: seq<Image>, env: LegacyEnv): (outs: seq<Result<Outcome>>)
    requires |images| == |names|
    ensures |outs| == |names|
    ensures forall i :: 0 <= i < |names| ==> outs[i] == Layer(i, names[i], images[i], images[..i], env)
  {
    seq(|names|, i requires 0 <= i < |names| => Layer(i, names[i], images[i], images[..i], env))
  }

  // ---------------------------------------------------------------------------------
  // Properties
  // ---------------------------------------------------------------------------------

  /**
   * In two-image mode with a secondary dose below the bulk dose, the written secondary
   * lies in the eroded slice and in every eroded earlier image of the window; above the
   * bulk dose it holds the whole rim (dilated minus eroded).
   */
  lemma TwoImageSecondary(name: string, i: nat, earlier: seq<Image>, sh: Shapes, env: LegacyEnv)
    requires i == |earlier|
    ensures var r := TwoImage(name, i, earlier, sh, env);
      var lo := RoofStart(i, env.settings.layersAbove);
      r.Proceed? && SecondaryDose(env.settings) < env.settings.bulkDose ==>
        r.ops[1].image <= sh.eroded
        && (env.settings.roofEnabled ==> forall k :: lo <= k < i ==> r.ops[1].image <= RoofEroded(earlier[k], env))
    ensures var r := TwoImage(name, i, earlier, sh, env);
      r.Proceed? && SecondaryDose(env.settings) > env.settings.bulkDose ==> sh.dilated - sh.eroded <= r.ops[1].image
  {
    var r := TwoImage(name, i, earlier, sh, env);
    var s := env.settings;
    var lo := RoofStart(i, s.layersAbove);
    if r.Proceed? && s.roofEnabled {
      var base := TwoImageBase(sh, s);
      var sec := r.ops[1].image;
      assert sec == RoofDown(base, earlier, i, i, SecondaryDose(s) < s.bulkDose, env);
      forall p | p in sec || p in base
        ensures SecondaryDose(s) < s.bulkDose && p in sec ==>
          p in sh.eroded && forall k :: lo <= k < i ==> p in RoofEroded(earlier[k], env)
        ensures SecondaryDose(s) > s.bulkDose && p in base ==> p in sec
      {
        RoofDownMembers(base, earlier, i, i, SecondaryDose(s) < s.bulkDose, env, p);
      }
    }
  }

  /** Three-image mode: the roof image lies in the dilated slice and in every eroded earlier image. */
  lemma ThreeImageRoof(earlier: seq<Image>, i: nat, sh: Shapes, env: LegacyEnv)
    requires i == |earlier|
    ensures var roof := ThreeRoof(earlier, i, sh, env);
      roof <= sh.dilated
      && forall k :: RoofStart(i, env.settings.layersAbove) <= k < i ==> roof <= RoofEroded(earlier[k], env)
  {
    forall p | p in ThreeRoof(earlier, i, sh, env) {
      RoofDownMembers(sh.dilated, earlier, i, i, true, env, p);
    }
  }

  /** Without `layers_to_check` nothing is written, removed or replaced. */
  lemma NothingWithoutLayers(names: seq<string>, images: seq<Image>, env: LegacyEnv, progress: Option<nat -> bool>)
    requires |images| == |names| && env.settings.layersToCheck.None?
    ensures RunLayers(Outcomes(names, images, env), progress).ops == []
  {
    var outs := Outcomes(names, images, env);
    NoWrites(outs, progress);
  }

  // ---------------------------------------------------------------------------------
  // The loop
  // ---------------------------------------------------------------------------------

  /** One layer as the loop body computes it, with the roof loop run in place. */
  method LayerStep(i: nat, name: string, image: Image, earlier: seq<Image>, env: LegacyEnv)
    returns (r: Result<Outcome>)
    requires i == |earlier|
    ensures r == Layer(i, name, image, earlier, env)
  {
    var num := LayerNumber(name);
    if num.None? {
      return Err(NoDigitsError);
    }
    if !InLayers(env.settings.layersToCheck, num) {
      return Ok(Proceed([]));
    }
    var s := env.settings;
    var sh := LayerShapes(image, name, env);
    if TwoImageMode(s) {
      var sec := SecondaryDose(s);
      if sec == s.bulkDose {
        return Ok(Continue);
      }
      var primary := sh.dilated;
      var secondary := TwoImageBase(sh, s);
      if s.roofEnabled {
        secondary := RoofLoop(secondary, earlier, i, sec < s.bulkDose, env);
      }
      if secondary == {} || secondary == primary {
        return Ok(Continue);
      }
      return Ok(Proceed([WriteBeside(name, PrimaryFile, primary), WriteBeside(name, SecondaryFile, secondary),
                         Remove(name)]));
    } else {
      var roof := RoofLoop(sh.dilated, earlier, i, true, env);
      var secondary := ThreeSecondary(sh, roof, s);
      var tertiary := ThreeTertiary(sh, roof, s);
      if sh.dilated == secondary && secondary == tertiary {
        return Ok(Continue);
      }
      var ops := WriteLit(name, PrimaryFile, sh.dilated) + WriteLit(name, SecondaryFile, secondary)
                 + WriteLit(name, TertiaryFile, tertiary);
      return Ok(Proceed(ops + [Remove(name)]));
    }
  }

  /**
   * `generate_secondary_images`: the images in order, each appended to the in-memory
   * list as read; returns the verdict and the file operations performed.
   */
  method GenerateSecondaryImages(names: seq<string>, files: seq<Image>, env: LegacyEnv,
                                 progress: Option<nat -> bool>)
    returns (r: Result<bool>, ops: seq<FileOp>)
    requires |files| == |names|
    ensures var p := RunLayers(Outcomes(names, files, env), progress);
      ops == p.ops && r == Verdict(p)
  {
    ghost var outs := Outcomes(names, files, env);
    var images: seq<Image> := [];
    ops := [];
    var i := 0;
    while i < |names|
      invariant i <= |names| && images == files[..i]
      invariant RunLayers(outs[..i], progress) == Progress(ops, Running)
    {
      var image := files[i];
      var earlier := images;
      PrefixAppend(files, i);
      images := images + [image];
      var outcome := LayerStep(i, names[i], image, earlier, env);
      assert outcome == outs[i];
      var stop;
      ops, stop := LoopStep(outs, progress, i, outcome, ops);
      if stop.Some? {
        return stop.value, ops;
      }
      i := i + 1;
    }
    assert outs[..i] == outs;
    return Ok(true), ops;
  }
}
