/**
 * The legacy `generate_membrane_images` of `pymfd`. A window of `thickness + 2`
 * consecutive slices is examined at every slice `i` past the first `thickness + 1`;
 * when both bounding layers are listed in `layers_to_check`, the pixels of each
 * interior slice that are dark in both bounding slices (after an opening) form a
 * membrane: the slice file is rewritten without it and a dilated membrane image is
 * written beside it. Windows always read the original images, kept in memory.
 */
module LegacyMembrane {
  import opened Wrappers
  import opened PixelSets
  import opened LegacyCommon

  /** `membrane_thickness`, `widen_by_px` and `layers_to_check`. */
  datatype MembraneSettings = MembraneSettings(thickness: nat, widenPx: nat, layersToCheck: Option<seq<int>>)

  /** The image frame, the morphology operators and the settings. */
  datatype MembraneEnv = MembraneEnv(frame: set<Pixel>, morph: Morphology, settings: MembraneSettings)

  /** The half-width of the 3x3 opening kernel. */
  const OpeningHalfWidth: nat := 1

  // ---------------------------------------------------------------------------------
  // One interior slice
  // ---------------------------------------------------------------------------------

  /** The pixels dark in both bounding slices of the window. */
  function WindowMask(first: Image, last: Image, frame: set<Pixel>): (m: Image)
    ensures forall p :: p in m <==> p in frame && p !in first && p !in last
  {
    Not(last, frame) * Not(first, frame)
  }

  /** The opened part of an interior slice that lies in the mask. */
  function Membrane(img: Image, mask: Image, env: MembraneEnv): Image
  {
    env.morph.open(img * mask, OpeningHalfWidth)
  }

  /**
   * The files written for one interior slice: nothing when its membrane is empty,
   * otherwise the slice without the membrane and the dilated membrane.
   */
  function InteriorOps(name: string, img: Image, mask: Image, env: MembraneEnv): (ops: seq<FileOp>)
    ensures ops == [] <==> Membrane(img, mask, env) == {}
    ensures ops != [] ==> |ops| == 2 && ops[0].Write? && ops[0].name == name
                          && ops[1].WriteBeside? && ops[1].slice == name && ops[1].kind == MembraneFile
  {
    var m := Membrane(img, mask, env);
    if m == {} then []
    else [Write(name, img - m), WriteBeside(name, MembraneFile, env.morph.dilate(m, env.settings.widenPx))]
  }

  /**
   * With sound operators, the rewritten slice is the original less a membrane drawn
   * from the mask: it loses only pixels dark in both bounding slices, and the removed
   * part is covered by the dilated membrane image, which stays in the frame.
   */
  lemma InteriorOpsSound(name: string, img: Image, first: Image, last: Image, env: MembraneEnv)
    requires Sound(env.morph, env.frame)
    ensures var mask := WindowMask(first, last, env.frame);
      var ops := InteriorOps(name, img, mask, env);
      ops != [] ==>
        ops[0].image <= img
        && img * (first + last) <= ops[0].image
        && img - env.frame <= ops[0].image
        && ops[1].image <= env.frame
        && img - ops[0].image <= ops[1].image
  {
    var mask := WindowMask(first, last, env.frame);
    var m := Membrane(img, mask, env);
    assert m <= img * mask;
    assert img * mask <= env.frame;
    assert m <= env.frame;
    assert m <= env.morph.dilate(m, env.settings.widenPx);
  }

  // ---------------------------------------------------------------------------------
  // One window
  // ---------------------------------------------------------------------------------

  /**
   * The files written for the interior slices `i - 1` down to `i - n` of the window
   * ending at the last seen slice `i`, in that order.
   */
  function WindowOps(names: seq<string>, seen: seq<Image>, n: nat, mask: Image, env: MembraneEnv): (ops: seq<FileOp>)
    requires |seen| <= |names| && n < |seen|
    decreases n
  {
    if n == 0 then []
    else
      var index := |seen| - 1 - n;
      WindowOps(names, seen, n - 1, mask, env) + InteriorOps(names[index], seen[index], mask, env)
  }

  /** A window writes nothing exactly when every interior membrane is empty. */
  lemma {:induction false} WindowOpsEmpty(names: seq<string>, seen: seq<Image>, n: nat, mask: Image, env: MembraneEnv)
    requires |seen| <= |names| && n < |seen|
    ensures WindowOps(names, seen, n, mask, env) == [] <==>
      forall x :: |seen| - 1 - n <= x < |seen| - 1 ==> Membrane(seen[x], mask, env) == {}
    decreases n
  {
    if n > 0 {
      WindowOpsEmpty(names, seen, n - 1, mask, env);
      var x := |seen| - 1 - n;
      var front := WindowOps(names, seen, n - 1, mask, env);
      var inter := InteriorOps(names[x], seen[x], mask, env);
      assert WindowOps(names, seen, n, mask, env) == front + inter;
      if front + inter == [] {
        assert |front| == 0 && |inter| == 0 by { assert |front + inter| == |front| + |inter|; }
        forall y | x <= y < |seen| - 1 ensures Membrane(seen[y], mask, env) == {} {
        }
      } else if front != [] {
        var y :| x < y < |seen| - 1 && Membrane(seen[y], mask, env) != {};
      } else {
        assert inter != [] && Membrane(seen[x], mask, env) != {};
      }
    }
  }

  /**
   * A file the window of thickness `t` ending at the last seen slice `i` may write: an
   * interior slice `x` rewritten within its original image, keeping every pixel lit in
   * a bounding slice, or the membrane image beside an interior slice.
   */
  ghost predicate WindowWrite(op: FileOp, names: seq<string>, seen: seq<Image>, t: nat)
    requires t + 1 < |seen| <= |names|
  {
    var i := |seen| - 1;
    exists x :: i - t <= x < i &&
      ((op.Write? && op.name == names[x] && seen[x] * (seen[i - (t + 1)] + seen[i]) <= op.image <= seen[x])
       || (op.WriteBeside? && op.slice == names[x] && op.kind == MembraneFile))
  }

  /** With sound operators, both files of one interior slice `x` of the window are such files. */
  lemma InteriorWrites(names: seq<string>, seen: seq<Image>, t: nat, x: nat, mask: Image, env: MembraneEnv)
    requires t + 1 < |seen| <= |names| && |seen| - 1 - t <= x < |seen| - 1
    requires mask == WindowMask(seen[|seen| - 1 - (t + 1)], seen[|seen| - 1], env.frame)
    requires Sound(env.morph, env.frame)
    ensures forall j :: 0 <= j < |InteriorOps(names[x], seen[x], mask, env)| ==>
      WindowWrite(InteriorOps(names[x], seen[x], mask, env)[j], names, seen, t)
  {
    var i := |seen| - 1;
    var first := seen[i - (t + 1)];
    var inter := InteriorOps(names[x], seen[x], mask, env);
    InteriorOpsSound(names[x], seen[x], first, seen[i], env);
    if inter != [] {
      assert inter[0].Write? && inter[0].name == names[x] && seen[x] * (first + seen[i]) <= inter[0].image <= seen[x];
      assert WindowWrite(inter[0], names, seen, t);
      assert inter[1].WriteBeside? && inter[1].slice == names[x] && inter[1].kind == MembraneFile;
      assert WindowWrite(inter[1], names, seen, t);
    }
  }

  /** With sound operators, every file of the window's first `n` interior slices is such a file. */
  lemma {:induction false} WindowOpsWrites(names: seq<string>, seen: seq<Image>, t: nat, n: nat, mask: Image, env: MembraneEnv)
    requires t + 1 < |seen| <= |names| && n <= t
    requires mask == WindowMask(seen[|seen| - 1 - (t + 1)], seen[|seen| - 1], env.frame)
    requires Sound(env.morph, env.frame)
    ensures forall k :: 0 <= k < |WindowOps(names, seen, n, mask, env)| ==>
      WindowWrite(WindowOps(names, seen, n, mask, env)[k], names, seen, t)
    decreases n
  {
    var i := |seen| - 1;
    var first := seen[i - (t + 1)];
    if n > 0 {
      WindowOpsWrites(names, seen, t, n - 1, mask, env);
      var x := i - n;
      var front := WindowOps(names, seen, n - 1, mask, env);
      var inter := InteriorOps(names[x], seen[x], mask, env);
      var ops := WindowOps(names, seen, n, mask, env);
      assert ops == front + inter;
      InteriorWrites(names, seen, t, x, mask, env);
      forall k | 0 <= k < |ops|
        ensures WindowWrite(ops[k], names, seen, t)
      {
        if k < |front| {
          assert ops[k] == front[k];
        } else {
          assert ops[k] == inter[k - |front|];
        }
      }
    }
  }

  /** With sound operators, every file of a whole window is a `WindowWrite`. */
  lemma WindowFilesWrite(names: seq<string>, seen: seq<Image>, env: MembraneEnv)
    requires env.settings.thickness + 1 < |seen| <= |names| && Sound(env.morph, env.frame)
    ensures forall k :: 0 <= k < |WindowFiles(names, seen, env)| ==>
      WindowWrite(WindowFiles(names, seen, env)[k], names, seen, env.settings.thickness)
  {
    var t := env.settings.thickness;
    var i := |seen| - 1;
    var mask := WindowMask(seen[i - (t + 1)], seen[i], env.frame);
    WindowOpsWrites(names, seen, t, t, mask, env);
    assert WindowFiles(names, seen, env) == WindowOps(names, seen, t, mask, env);
  }

  /**
   * The outcome of the slice `i = |seen| - 1`, having read the slices `seen`: the first
   * `thickness + 1` slices continue at once; otherwise the layer numbers of slice
   * `i - (thickness + 1)` and of slice `i` are read, and the window's files are written
   * only when both are listed.
   */
  function WindowAt(names: seq<string>, seen: seq<Image>, env: MembraneEnv): (r: Result<Outcome>)
    requires 0 < |seen| <= |names|
    ensures var t := env.settings.thickness; var i := |seen| - 1;
      r.Err? <==> i >= t + 1 && (LayerNumber(names[i - (t + 1)]).None? || LayerNumber(names[i]).None?)
    ensures var t := env.settings.thickness; var i := |seen| - 1;
      i < t + 1 ==> r == Ok(Continue)
    ensures var t := env.settings.thickness; var i := |seen| - 1;
      r.Ok? && r.value.Proceed? && r.value.ops != [] ==>
        i >= t + 1 && InLayers(env.settings.layersToCheck, LayerNumber(names[i - (t + 1)]))
        && InLayers(env.settings.layersToCheck, LayerNumber(names[i]))
  {
    var t := env.settings.thickness;
    var i := |seen| - 1;
    if i < t + 1 then Ok(Continue)
    else
      if LayerNumber(names[i - (t + 1)]).None? || LayerNumber(names[i]).None? then Err(NoDigitsError)
      else if InLayers(env.settings.layersToCheck, LayerNumber(names[i - (t + 1)]))
              && InLayers(env.settings.layersToCheck, LayerNumber(names[i])) then
        Ok(Proceed(WindowFiles(names, seen, env)))
      else Ok(Proceed([]))
  }

  /** The files of the window that ends at the last seen slice, masked by its two bounding slices. */
  function WindowFiles(names: seq<string>, seen: seq<Image>, env: MembraneEnv): seq<FileOp>
    requires env.settings.thickness + 1 < |seen| <= |names|
  {
    var t := env.settings.thickness;
    var i := |seen| - 1;
    WindowOps(names, seen, t, WindowMask(seen[i - (t + 1)], seen[i], env.frame), env)
  }

  /** The outcome of every slice, each window reading the original images. */
  function Outcomes(names: seq<string>, images: seq<Image>, env: MembraneEnv): (outs: seq<Result<Outcome>>)
    requires |images| == |names|
    ensures |outs| == |names|
    ensures forall i :: 0 <= i < |names| ==> outs[i] == WindowAt(names, images[..i + 1], env)
  {
    seq(|names|, i requires 0 <= i < |names| => WindowAt(names, images[..i + 1], env))
  }

  // ---------------------------------------------------------------------------------
  // Properties
  // ---------------------------------------------------------------------------------

  /**
   * A file written at slice `i` is one of the slices `i - thickness .. i - 1` (rewritten
   * without its membrane) or the membrane image beside it; with sound operators the
   * rewritten slice keeps every pixel lit in slice `i - (thickness + 1)` or slice `i`.
   */
  lemma WindowWrites(names: seq<string>, images: seq<Image>, env: MembraneEnv, i: nat, k: nat)
    requires |images| == |names| && i < |names|
    requires Sound(env.morph, env.frame)
    requires var out := Outcomes(names, images, env)[i]; out.Ok? && out.value.Proceed? && k < |out.value.ops|
    ensures var t := env.settings.thickness;
      var op := Outcomes(names, images, env)[i].value.ops[k];
      i >= t + 1 &&
      exists x :: i - t <= x < i &&
        ((op.Write? && op.name == names[x] && images[x] * (images[i - (t + 1)] + images[i]) <= op.image <= images[x])
         || (op.WriteBeside? && op.slice == names[x] && op.kind == MembraneFile))
  {
    var t := env.settings.thickness;
    var seen := images[..i + 1];
    var out := Outcomes(names, images, env)[i];
    assert out == WindowAt(names, seen, env);
    assert i >= t + 1 && LayerNumber(names[i - (t + 1)]).Some? && LayerNumber(names[i]).Some?;
    assert out == Ok(Proceed(WindowFiles(names, seen, env)));
    var ops := out.value.ops;
    WindowFilesWrite(names, seen, env);
    assert WindowWrite(ops[k], names, seen, t);
    var x :| i - t <= x < i &&
      ((ops[k].Write? && ops[k].name == names[x] && seen[x] * (seen[i - (t + 1)] + seen[i]) <= ops[k].image <= seen[x])
       || (ops[k].WriteBeside? && ops[k].slice == names[x] && ops[k].kind == MembraneFile));
    assert seen[x] == images[x] && seen[i - (t + 1)] == images[i - (t + 1)] && seen[i] == images[i];
  }

  /** Without `layers_to_check` the pass writes nothing, whatever it returns. */
  lemma NothingWithoutLayers(names: seq<string>, images: seq<Image>, env: MembraneEnv, progress: Option<nat -> bool>)
    requires |images| == |names| && env.settings.layersToCheck.None?
    ensures RunLayers(Outcomes(names, images, env), progress).ops == []
  {
    NoWrites(Outcomes(names, images, env), progress);
  }

  /**
   * When every slice name holds a number the pass does not raise; it returns `False`
   * exactly when progress answers falsy at some slice past the first
   * `thickness + 1`.
   */
  lemma MembraneVerdict(names: seq<string>, images: seq<Image>, env: MembraneEnv, progress: Option<nat -> bool>)
    requires |images| == |names|
    requires forall i :: 0 <= i < |names| ==> LayerNumber(names[i]).Some?
    ensures var p := RunLayers(Outcomes(names, images, env), progress);
      p.status != Running ==> p.status == Aborted
    ensures var p := RunLayers(Outcomes(names, images, env), progress);
      p.status == Aborted <==>
        progress.Some? && exists i :: env.settings.thickness + 1 <= i < |names| && !progress.value(i)
  {
    var outs := Outcomes(names, images, env);
    var t := env.settings.thickness;
    forall i | 0 <= i < |names|
      ensures outs[i].Ok?
      ensures StopsAt(outs, progress, i) <==> progress.Some? && t + 1 <= i && !progress.value(i)
    {
      assert outs[i] == WindowAt(names, images[..i + 1], env);
    }
    RunLayersVerdict(outs, progress);
  }

  // ---------------------------------------------------------------------------------
  // The pass
  // ---------------------------------------------------------------------------------

  /** The nested loop over the interior slices of the window ending at the last seen slice. */
  method WindowLoop(names: seq<string>, seen: seq<Image>, mask: Image, env: MembraneEnv) returns (ops: seq<FileOp>)
    requires |seen| <= |names| && env.settings.thickness < |seen|
    ensures ops == WindowOps(names, seen, env.settings.thickness, mask, env)
  {
    var i := |seen| - 1;
    ops := [];
    for j := 0 to env.settings.thickness
      invariant ops == WindowOps(names, seen, j, mask, env)
    {
      var index := i - (j + 1);
      var written := InteriorOps(names[index], seen[index], mask, env);
      ops := ops + written;
    }
  }

  /** One slice of the outer loop, up to the progress call. */
  method WindowStep(names: seq<string>, seen: seq<Image>, env: MembraneEnv) returns (r: Result<Outcome>)
    requires 0 < |seen| <= |names|
    ensures r == WindowAt(names, seen, env)
  {
    var t := env.settings.thickness;
    var i := |seen| - 1;
    if i < t + 1 {
      return Ok(Continue);
    }
    var first := LayerNumber(names[i - (t + 1)]);
    if first.None? {
      return Err(NoDigitsError);
    }
    var last := LayerNumber(names[i]);
    if last.None? {
      return Err(NoDigitsError);
    }
    if InLayers(env.settings.layersToCheck, first) && InLayers(env.settings.layersToCheck, last) {
      var mask := Not(seen[i], env.frame) * Not(seen[i - (t + 1)], env.frame);
      var ops := WindowLoop(names, seen, mask, env);
      assert ops == WindowFiles(names, seen, env);
      return Ok(Proceed(ops));
    }
    return Ok(Proceed([]));
  }

  /**
   * `generate_membrane_images` over the slice files `names` whose images are `files`:
   * the files it writes and what it returns, `True`, `False` or the exception.
   */
  method GenerateMembraneImages(names: seq<string>, files: seq<Image>, env: MembraneEnv,
                                progress: Option<nat -> bool>)
    returns (r: Result<bool>, ops: seq<FileOp>)
    requires |files| == |names|
    ensures var p := RunLayers(Outcomes(names, files, env), progress);
      ops == p.ops && r == Verdict(p)
  {
    ghost var outs := Outcomes(names, files, env);
    var images: seq<Image> := [];
    ops := [];
    var i := 0;
    while i < |names|
      invariant i <= |names| && images == files[..i]
      invariant RunLayers(outs[..i], progress) == Progress(ops, Running)
    {
      PrefixAppend(files, i);
      images := images + [files[i]];
      var outcome := WindowStep(names, images, env);
      assert outcome == outs[i];
      var stop;
      ops, stop := LoopStep(outs, progress, i, outcome, ops);
      if stop.Some? {
        return stop.value, ops;
      }
      i := i + 1;
    }
    assert outs[..i] == outs;
    return Ok(true), ops;
  }
}
