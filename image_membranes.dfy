/**
 * The membrane pass of the openmfd slicer (`generate_membrane_images_from_folders`).
 *
 * For each slice `i` after the first, the pass looks for the first earlier slice whose
 * distance below `i` matches the membrane thickness. Every slice `j` strictly between
 * that slice and `i`, and `i` itself, then gets a membrane: the pixels of `j` that are
 * dark in the slice above `i` and lit in the slice below the window or in `j`'s mask,
 * opened with a 3 by 3 kernel. The membrane is cut out of the slice image and, dilated,
 * appended to `membrane_slices`.
 *
 * The pass reads the metadata it has already rewritten, so it is specified as a fold
 * over the slices (`MembraneRun`) whose state is the whole metadata.
 */
module MembraneGeneration {
  import opened Wrappers
  import opened Numbers
  import opened PixelSets
  import opened ImageGeneration
  import Paths

  datatype MembraneSettings = MembraneSettings(thicknessUm: real, dilationPx: nat, exposure: SettingsId)

  /** The inputs of the pass. */
  datatype MembraneEnv = MembraneEnv(
    images: Folder,
    masks: Folder,
    frame: set<Pixel>,
    morph: Morphology,
    settings: MembraneSettings,
    unique: (string, string) -> string)

  /** The 0.01 µm tolerance on the membrane thickness. */
  const Tolerance: real := 0.01

  /** How far the distance between slices `i` and `k` is from the membrane thickness. */
  function ThicknessError(ms: seq<Meta>, i: nat, k: nat, t: real): real
    requires i < |ms| && k < |ms|
  {
    AbsR(AbsR(ms[i].layerPosition - ms[k].layerPosition) - t)
  }

  /** Slice `k` lies one membrane thickness below slice `i`, within the tolerance. */
  predicate Close(ms: seq<Meta>, i: nat, k: nat, t: real)
    requires i < |ms| && k < |ms|
  {
    ThicknessError(ms, i, k, t) < Tolerance
  }

  /** Where the search loop stops when it starts at `k`: the first close slice, or `i - 1`. */
  function ScanClose(ms: seq<Meta>, i: nat, t: real, k: nat): (r: nat)
    requires k < i < |ms|
    ensures k <= r < i
    ensures Close(ms, i, r, t) || r == i - 1
    ensures forall k' :: k <= k' < r ==> !Close(ms, i, k', t)
    decreases i - k
  {
    if Close(ms, i, k, t) || k == i - 1 then k else ScanClose(ms, i, t, k + 1)
  }

  /**
   * The slice below the membrane window of slice `i`: the first earlier slice at one
   * thickness below `i`, or `None` when the pass skips `i`.
   */
  function MembraneSource(ms: seq<Meta>, i: nat, t: real): (r: Option<nat>)
    requires 0 < i < |ms|
    ensures r.Some? ==> r.value < i && ThicknessError(ms, i, r.value, t) <= Tolerance
    ensures r.Some? ==> forall k :: 0 <= k < r.value ==> !Close(ms, i, k, t)
    ensures (exists k :: 0 <= k < i && Close(ms, i, k, t)) ==> r.Some? && Close(ms, i, r.value, t)
    ensures r.None? ==> forall k :: 0 <= k < i ==> !Close(ms, i, k, t)
  {
    var k := ScanClose(ms, i, t, 0);
    if ThicknessError(ms, i, k, t) > Tolerance then None else Some(k)
  }

  /** The search loop with its `break`, and the skip test after it. */
  method FindMembraneSource(ms: seq<Meta>, i: nat, t: real) returns (source: Option<nat>)
    requires 0 < i < |ms|
    ensures source == MembraneSource(ms, i, t)
  {
    var prev := 0;
    var deltaZ := 0.0;
    var k := 0;
    while k < i
      invariant 0 <= k <= i
      invariant forall k' :: 0 <= k' < k ==> !Close(ms, i, k', t)
      invariant k > 0 ==> prev == k - 1 && deltaZ == AbsR(ms[i].layerPosition - ms[k - 1].layerPosition)
    {
      prev := k;
      deltaZ := AbsR(ms[i].layerPosition - ms[k].layerPosition);
      if AbsR(deltaZ - t) < Tolerance {
        break;
      }
      k := k + 1;
    }
    var first := ScanClose(ms, i, t, 0);
    assert prev == first by {
      assert Close(ms, i, prev, t) || prev == i - 1;
      assert forall k' :: 0 <= k' < prev ==> !Close(ms, i, k', t);
    }
    if AbsR(deltaZ - t) > Tolerance {
      return None;
    }
    return Some(prev);
  }

  /**
   * The membrane candidate region of a slice: the slice image inside the complement of
   * the dark-below-and-mask complement, inside the complement of the slice above.
   */
  function Candidate(image: Image, prev: Image, next: Image, mask: Image, frame: set<Pixel>): (r: Image)
    ensures r == image * Not(next, frame) * (prev + mask)
  {
    var outside := Not(prev, frame) * Not(mask, frame);
    var region := Not(next, frame) * Not(outside, frame);
    image * region
  }

  /** The slice above the window: empty past the last slice, otherwise loaded as usual. */
  function NextImage(ms: seq<Meta>, i: nat, images: Folder): (r: Option<Image>)
    requires i < |ms|
    ensures i + 1 >= |ms| ==> r == Some({})
    ensures i + 1 < |ms| ==> r == LoadImage(ms[i + 1], images)
  {
    if i + 1 >= |ms| then Some({}) else LoadImage(ms[i + 1], images)
  }

  /** The metadata threaded through the pass: the slices, `membrane_slices`, a raised error. */
  datatype Store = Store(slices: seq<Meta>, extras: Option<seq<ExtraSlice>>, failed: bool)

  /**
   * Slice `b` is slice `a` with at most a part of its image cut out: a slice without
   * image data is left as it is.
   */
  predicate CutFrom(a: Meta, b: Meta)
  {
    b.imageName == a.imageName && b.layerPosition == a.layerPosition
    && b.positionSettings == a.positionSettings
    && (a.imageData.None? ==> b == a)
    && (a.imageData.Some? ==> b.imageData.Some? && b.imageData.value <= a.imageData.value)
  }

  /** Every slice of `after` is cut from the slice of `before` at the same index. */
  predicate CutsOnly(before: seq<Meta>, after: seq<Meta>)
  {
    |before| == |after| && forall k :: 0 <= k < |before| ==> CutFrom(before[k], after[k])
  }

  /** A membrane entry: a non-empty image and the pass's dilation. */
  predicate MembraneEntry(e: ExtraSlice, dilationPx: nat)
  {
    e.image != {} && e.dilationPx == Some(dilationPx)
  }

  /** The list only gains membrane entries. */
  predicate GainsMembranes(before: Option<seq<ExtraSlice>>, after: Option<seq<ExtraSlice>>, dilationPx: nat)
  {
    OrEmpty(before) <= OrEmpty(after)
    && forall k :: |OrEmpty(before)| <= k < |OrEmpty(after)| ==> MembraneEntry(OrEmpty(after)[k], dilationPx)
  }

  /**
   * What the pass may do to the metadata between two of its states: cut membranes out of
   * slices that carry image data, and append membrane entries.
   */
  predicate Shrinks(before: Store, after: Store, dilationPx: nat)
  {
    CutsOnly(before.slices, after.slices) && GainsMembranes(before.extras, after.extras, dilationPx)
  }

  /** `Shrinks` composes. */
  lemma ShrinksTrans(a: Store, b: Store, c: Store, d: nat)
    requires Shrinks(a, b, d) && Shrinks(b, c, d)
    ensures Shrinks(a, c, d)
  {
    forall k | |OrEmpty(a.extras)| <= k < |OrEmpty(c.extras)|
      ensures MembraneEntry(OrEmpty(c.extras)[k], d)
    {
      if k < |OrEmpty(b.extras)| {
        assert OrEmpty(c.extras)[k] == OrEmpty(b.extras)[k];
      }
    }
  }

  /**
   * The membrane found in slice `j`, or `None` when the iteration is skipped: the mask is
   * missing, unreadable or dark, the slice carries no image data (reading its missing
   * file gives nothing), the slice below or above cannot be loaded, or the opened
   * candidate region is empty.
   */
  function CellMembrane(st: Store, i: nat, prev: nat, j: nat, env: MembraneEnv): (r: Option<Image>)
    requires prev < j <= i < |st.slices|
    ensures r.Some? ==> st.slices[j].imageData.Some? && LitMask(env.masks, st.slices[j].imageName)
    ensures r.Some? ==> r.value != {}
    ensures Sound(env.morph, env.frame) && r.Some? ==>
      r.value <= env.frame && r.value <= st.slices[j].imageData.value
  {
    var meta := st.slices[j];
    if !LitMask(env.masks, meta.imageName) then None
    else if meta.imageData.None? then None
    else
      var mask := Read(env.masks, meta.imageName).value;
      var image := meta.imageData.value;
      match LoadImage(st.slices[prev], env.images)
      case None => None
      case Some(prevImage) =>
        match NextImage(st.slices, i, env.images)
        case None => None
        case Some(nextImage) =>
          var membrane := env.morph.open(Candidate(image, prevImage, nextImage, mask, env.frame), 1);
          if membrane == {} then None else Some(membrane)
  }

  /**
   * One iteration `j` of the inner loop for slice `i` with the window starting below
   * `prev`: the membrane is cut out of slice `j` and its dilation appended to the list.
   */
  function MembraneCell(st: Store, i: nat, prev: nat, j: nat, env: MembraneEnv): (r: Store)
    requires prev < j <= i < |st.slices|
    ensures |r.slices| == |st.slices|
  {
    match CellMembrane(st, i, prev, j, env)
    case None => st
    case Some(membrane) =>
      var meta := st.slices[j];
      var slices := st.slices[j := meta.(imageData := Some(meta.imageData.value - membrane))];
      var list := OrEmpty(st.extras);
      match meta.positionSettings
      case None => Store(slices, Some(list), true)
      case Some(ps) =>
        var dilated := env.morph.dilate(membrane, env.settings.dilationPx);
        var name := env.unique(Paths.Stem(meta.imageName), "membrane");
        var entry := ExtraSlice(name, dilated, meta.layerPosition, env.settings.exposure,
                                Some(env.settings.dilationPx), ps);
        Store(slices, Some(list + [entry]), false)
  }

  /** The iterations `prev + 1 .. j - 1` of the inner loop for slice `i`. */
  function MembraneRow(st: Store, i: nat, prev: nat, j: nat, env: MembraneEnv): (r: Store)
    requires prev < j <= i + 1 && i < |st.slices|
    ensures |r.slices| == |st.slices|
    ensures st.failed ==> r == st
    decreases j
  {
    if j == prev + 1 then st
    else
      var s := MembraneRow(st, i, prev, j - 1, env);
      if s.failed then s else MembraneCell(s, i, prev, j - 1, env)
  }

  /** The iteration for slice `i` of the outer loop. */
  function MembraneLayer(st: Store, i: nat, env: MembraneEnv): (r: Store)
    requires i < |st.slices|
    ensures |r.slices| == |st.slices|
    ensures st.failed ==> r == st
  {
    if i == 0 then st
    // The guard for the last slice never holds, since `i` is below the slice count.
    else if i > |st.slices| - 1 then st
    else
      match MembraneSource(st.slices, i, env.settings.thicknessUm)
      case None => st
      case Some(prev) => MembraneRow(st, i, prev, i + 1, env)
  }

  /** The outer loop over the slices `0 .. n - 1`. */
  function MembraneRun(st: Store, n: nat, env: MembraneEnv): (r: Store)
    requires n <= |st.slices|
    ensures |r.slices| == |st.slices|
    decreases n
  {
    if n == 0 then st
    else
      var s := MembraneRun(st, n - 1, env);
      if s.failed then s else MembraneLayer(s, n - 1, env)
  }

  /** Cutting pixels out of one slice that carries image data, and appending entries. */
  lemma CutShrinks(st: Store, j: nat, rest: Image, added: seq<ExtraSlice>, failed: bool, d: nat)
    requires j < |st.slices| && st.slices[j].imageData.Some? && rest <= st.slices[j].imageData.value
    requires forall k :: 0 <= k < |added| ==> MembraneEntry(added[k], d)
    ensures Shrinks(st, Store(st.slices[j := st.slices[j].(imageData := Some(rest))],
                              Some(OrEmpty(st.extras) + added), failed), d)
  {
    var after := Some(OrEmpty(st.extras) + added);
    assert OrEmpty(after) == OrEmpty(st.extras) + added;
  }

  /**
   * One iteration cuts the opened membrane out of slice `j` only, and appends its
   * dilation, which is non-empty because the membrane is.
   */
  lemma CellShrinks(st: Store, i: nat, prev: nat, j: nat, env: MembraneEnv)
    requires prev < j <= i < |st.slices|
    requires Sound(env.morph, env.frame)
    ensures Shrinks(st, MembraneCell(st, i, prev, j, env), env.settings.dilationPx)
    ensures forall k :: 0 <= k < |st.slices| && k != j ==> MembraneCell(st, i, prev, j, env).slices[k] == st.slices[k]
  {
    var meta := st.slices[j];
    var d := env.settings.dilationPx;
    var found := CellMembrane(st, i, prev, j, env);
    if found.Some? {
      var membrane := found.value;
      var rest := meta.imageData.value - membrane;
      var dilated := env.morph.dilate(membrane, d);
      assert membrane <= dilated;
      if meta.positionSettings.None? {
        CutShrinks(st, j, rest, [], true, d);
        assert OrEmpty(st.extras) + [] == OrEmpty(st.extras);
      } else {
        var entry := ExtraSlice(env.unique(Paths.Stem(meta.imageName), "membrane"), dilated,
                                meta.layerPosition, env.settings.exposure, Some(d),
                                meta.positionSettings.value);
        CutShrinks(st, j, rest, [entry], false, d);
      }
    }
  }

  /** The inner loop only removes pixels and appends non-empty membranes. */
  lemma {:induction false} RowShrinks(st: Store, i: nat, prev: nat, j: nat, env: MembraneEnv)
    requires prev < j <= i + 1 && i < |st.slices|
    requires Sound(env.morph, env.frame)
    ensures Shrinks(st, MembraneRow(st, i, prev, j, env), env.settings.dilationPx)
    decreases j
  {
    if j > prev + 1 {
      RowShrinks(st, i, prev, j - 1, env);
      RowStepShrinks(st, i, prev, j, env);
      ShrinksTrans(st, MembraneRow(st, i, prev, j - 1, env), MembraneRow(st, i, prev, j, env), env.settings.dilationPx);
    } else {
      ShrinksRefl(st, env.settings.dilationPx);
    }
  }

  /** One iteration of the inner loop only removes pixels and appends non-empty membranes. */
  lemma RowStepShrinks(st: Store, i: nat, prev: nat, j: nat, env: MembraneEnv)
    requires prev + 1 < j <= i + 1 && i < |st.slices|
    requires Sound(env.morph, env.frame)
    ensures Shrinks(MembraneRow(st, i, prev, j - 1, env), MembraneRow(st, i, prev, j, env), env.settings.dilationPx)
  {
    var s := MembraneRow(st, i, prev, j - 1, env);
    if s.failed {
      ShrinksRefl(s, env.settings.dilationPx);
    } else {
      CellShrinks(s, i, prev, j - 1, env);
    }
  }

  /** `Shrinks` is reflexive. */
  lemma ShrinksRefl(st: Store, d: nat)
    ensures Shrinks(st, st, d)
  {
  }

  /** The inner loop cuts membranes only out of the window slices `prev + 1 .. j - 1`. */
  lemma {:induction false} RowKeeps(st: Store, i: nat, prev: nat, j: nat, env: MembraneEnv)
    requires prev < j <= i + 1 && i < |st.slices|
    requires Sound(env.morph, env.frame)
    ensures |MembraneRow(st, i, prev, j, env).slices| == |st.slices|
    ensures forall k :: 0 <= k < |st.slices| && (k <= prev || k >= j) ==>
      MembraneRow(st, i, prev, j, env).slices[k] == st.slices[k]
    decreases j
  {
    if j > prev + 1 {
      RowKeeps(st, i, prev, j - 1, env);
      var s := MembraneRow(st, i, prev, j - 1, env);
      if !s.failed {
        var c := MembraneCell(s, i, prev, j - 1, env);
        assert MembraneRow(st, i, prev, j, env) == c;
        CellShrinks(s, i, prev, j - 1, env);
        forall k | 0 <= k < |st.slices| && (k <= prev || k >= j)
          ensures c.slices[k] == st.slices[k]
        {
          assert c.slices[k] == s.slices[k];
        }
      }
    }
  }

  /** The step for slice `i` never touches the first slice. */
  lemma LayerShrinks(st: Store, i: nat, env: MembraneEnv)
    requires i < |st.slices|
    requires Sound(env.morph, env.frame)
    ensures Shrinks(st, MembraneLayer(st, i, env), env.settings.dilationPx)
    ensures MembraneLayer(st, i, env).slices[0] == st.slices[0]
  {
    if 0 < i {
      var source := MembraneSource(st.slices, i, env.settings.thicknessUm);
      if source.Some? {
        RowShrinks(st, i, source.value, i + 1, env);
        RowKeeps(st, i, source.value, i + 1, env);
      }
    }
  }

  /**
   * The whole pass never rewrites the first slice, never touches a slice without image
   * data, only removes pixels from slice images, and only appends non-empty membranes.
   */
  lemma {:induction false} RunShrinks(st: Store, n: nat, env: MembraneEnv)
    requires n <= |st.slices|
    requires Sound(env.morph, env.frame)
    ensures Shrinks(st, MembraneRun(st, n, env), env.settings.dilationPx)
    ensures |st.slices| > 0 ==> MembraneRun(st, n, env).slices[0] == st.slices[0]
    decreases n
  {
    if n > 0 {
      RunShrinks(st, n - 1, env);
      var s := MembraneRun(st, n - 1, env);
      if !s.failed {
        LayerShrinks(s, n - 1, env);
        ShrinksTrans(st, s, MembraneLayer(s, n - 1, env), env.settings.dilationPx);
      }
    }
  }

  /** Once a row has raised, its later iterations change nothing. */
  lemma {:induction false} MembraneRowStops(st: Store, i: nat, prev: nat, j: nat, m: nat, env: MembraneEnv)
    requires prev < j <= m <= i + 1 && i < |st.slices|
    requires MembraneRow(st, i, prev, j, env).failed
    ensures MembraneRow(st, i, prev, m, env) == MembraneRow(st, i, prev, j, env)
    decreases m
  {
    if m > j {
      MembraneRowStops(st, i, prev, j, m - 1, env);
    }
  }

  /** Once the pass has raised, the later slices change nothing. */
  lemma {:induction false} MembraneRunStops(st: Store, n: nat, m: nat, env: MembraneEnv)
    requires n <= m <= |st.slices|
    requires MembraneRun(st, n, env).failed
    ensures MembraneRun(st, m, env) == MembraneRun(st, n, env)
    decreases m
  {
    if m > n {
      MembraneRunStops(st, n, m - 1, env);
    }
  }

  /**
   * `generate_membrane_images_from_folders`: the metadata ends as `MembraneRun` over all
   * slices describes, and the pass reports the `KeyError` of a membrane on a slice
   * without position settings.
   */
  method GenerateMembraneImages(md: SliceMetadata, env: MembraneEnv) returns (r: Result<()>)
    modifies md
    ensures var st := MembraneRun(Store(old(md.slices), old(md.membraneSlices), false), |old(md.slices)|, env);
      md.slices == st.slices && md.membraneSlices == st.extras && (r.Err? <==> st.failed)
    ensures md.exposureSlices == old(md.exposureSlices) && md.secondarySlices == old(md.secondarySlices)
  {
    ghost var st0 := Store(md.slices, md.membraneSlices, false);
    var n := |md.slices|;
    var i := 0;
    while i < n
      invariant 0 <= i <= n == |md.slices| == |st0.slices|
      invariant MembraneRun(st0, i, env) == Store(md.slices, md.membraneSlices, false)
      invariant md.exposureSlices == old(md.exposureSlices) && md.secondarySlices == old(md.secondarySlices)
    {
      ghost var before := Store(md.slices, md.membraneSlices, false);
      if i == 0 {
        i := i + 1;
        continue;
      }
      var source := FindMembraneSource(md.slices, i, env.settings.thicknessUm);
      if source.None? {
        assert MembraneLayer(before, i, env) == before;
        i := i + 1;
        continue;
      }
      r := CutWindow(md, i, source.value, env);
      assert MembraneLayer(before, i, env) == Store(md.slices, md.membraneSlices, r.Err?);
      if r.Err? {
        MembraneRunStops(st0, i + 1, n, env);
        return r;
      }
      i := i + 1;
    }
    return Ok(());
  }

  /** The inner loop for slice `i`: the window slices `prev + 1 .. i` in order. */
  method CutWindow(md: SliceMetadata, i: nat, prev: nat, env: MembraneEnv) returns (r: Result<()>)
    requires prev < i < |md.slices|
    modifies md
    ensures MembraneRow(Store(old(md.slices), old(md.membraneSlices), false), i, prev, i + 1, env)
         == Store(md.slices, md.membraneSlices, r.Err?)
    ensures md.exposureSlices == old(md.exposureSlices) && md.secondarySlices == old(md.secondarySlices)
  {
    ghost var atLayer := Store(md.slices, md.membraneSlices, false);
    var j := prev + 1;
    while j < i + 1
      invariant prev + 1 <= j <= i + 1 && |md.slices| == |atLayer.slices|
      invariant MembraneRow(atLayer, i, prev, j, env) == Store(md.slices, md.membraneSlices, false)
      invariant md.exposureSlices == old(md.exposureSlices) && md.secondarySlices == old(md.secondarySlices)
    {
      r := CutMembrane(md, i, prev, j, env);
      if r.Err? {
        MembraneRowStops(atLayer, i, prev, j + 1, i + 1, env);
        return r;
      }
      j := j + 1;
    }
    return Ok(());
  }

  /** The body of the inner loop: one `MembraneCell` step on the metadata. */
  method CutMembrane(md: SliceMetadata, i: nat, prev: nat, j: nat, env: MembraneEnv) returns (r: Result<()>)
    requires prev < j <= i < |md.slices|
    modifies md
    ensures var c := MembraneCell(Store(old(md.slices), old(md.membraneSlices), false), i, prev, j, env);
      md.slices == c.slices && md.membraneSlices == c.extras && (r.Err? <==> c.failed)
    ensures md.exposureSlices == old(md.exposureSlices) && md.secondarySlices == old(md.secondarySlices)
  {
    ghost var st := Store(md.slices, md.membraneSlices, false);
    var meta := md.slices[j];
    var mask := Read(env.masks, meta.imageName);
    if mask.None? || mask.value == {} {
      assert CellMembrane(st, i, prev, j, env).None?;
      return Ok(());
    }
    if meta.imageData.None? {
      assert CellMembrane(st, i, prev, j, env).None?;
      return Ok(());
    }
    var image := meta.imageData.value;
    var prevImage := LoadImage(md.slices[prev], env.images);
    if prevImage.None? {
      assert CellMembrane(st, i, prev, j, env).None?;
      return Ok(());
    }
    var nextImage: Option<Image>;
    if i + 1 >= |md.slices| {
      nextImage := Some({});
    } else {
      nextImage := LoadImage(md.slices[i + 1], env.images);
    }
    assert nextImage == NextImage(st.slices, i, env.images);
    if nextImage.None? {
      assert CellMembrane(st, i, prev, j, env).None?;
      return Ok(());
    }
    var outside := Not(prevImage.value, env.frame) * Not(mask.value, env.frame);
    var region := Not(nextImage.value, env.frame) * Not(outside, env.frame);
    assert image * region == Candidate(image, prevImage.value, nextImage.value, mask.value, env.frame);
    var membrane := env.morph.open(image * region, 1);
    if membrane == {} {
      assert CellMembrane(st, i, prev, j, env).None?;
      return Ok(());
    }
    assert CellMembrane(st, i, prev, j, env) == Some(membrane);
    md.slices := md.slices[j := meta.(imageData := Some(image - membrane))];
    md.membraneSlices := Some(OrEmpty(md.membraneSlices));
    if meta.positionSettings.None? {
      return Err("KeyError: 'position_settings'");
    }
    var dilated := env.morph.dilate(membrane, env.settings.dilationPx);
    var name := env.unique(Paths.Stem(meta.imageName), "membrane");
    md.membraneSlices := Some(md.membraneSlices.value + [ExtraSlice(name, dilated, meta.layerPosition,
      env.settings.exposure, Some(env.settings.dilationPx), meta.positionSettings.value)]);
    return Ok(());
  }
}
