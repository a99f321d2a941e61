/**
 * The legacy print-file driver of `pymfd` (`old_main.py`): the per-STL settings logic
 * in front of the membrane and edge/roof passes, the refusal to overwrite an existing
 * output, and the staging of each STL and its design files in a folder of its own.
 */
module OldMain {
  import opened Wrappers
  import opened Numbers
  import opened Text
  import opened PixelSets
  import Paths
  import opened LegacyCommon
  import LegacySecondary
  import LegacyMembrane

  /** The `membrane_widen_by_px` default the driver leaves in place. */
  const MembraneWidenDefault: nat := 2

  /** The placeholder the design-file field holds when no file was chosen. */
  const NoDesignFile := "Select design file..."

  // ---------------------------------------------------------------------------------
  // Edge and roof settings
  // ---------------------------------------------------------------------------------

  /**
   * The edge and roof switches after the dose check: a feature whose dose equals the
   * bulk dose is switched off.
   */
  function CheckedSwitches(enSecondary: bool, enRoof: bool, edgeDose: real, roofDose: real, bulkDose: real)
    : (r: (bool, bool))
    ensures r.0 <==> enSecondary && edgeDose != bulkDose
    ensures r.1 <==> enRoof && roofDose != bulkDose
  {
    (enSecondary && edgeDose != bulkDose, enRoof && roofDose != bulkDose)
  }

  /** Checking the doses a second time changes nothing. */
  lemma CheckedSwitchesSettle(enSecondary: bool, enRoof: bool, edgeDose: real, roofDose: real, bulkDose: real)
    ensures var r := CheckedSwitches(enSecondary, enRoof, edgeDose, roofDose, bulkDose);
      CheckedSwitches(r.0, r.1, edgeDose, roofDose, bulkDose) == r
  {
  }

  /**
   * `narrow_by_px` as passed on: the configured size, or zero when the edge feature is
   * off or is an erosion.
   */
  function NarrowPx(enSecondary: bool, isErosion: bool, dilationSizePx: nat): (n: nat)
    ensures n <= dilationSizePx
    ensures n != 0 <==> enSecondary && !isErosion && dilationSizePx != 0
  {
    if !enSecondary || isErosion then 0 else dilationSizePx
  }

  /**
   * `widen_by_px` as passed on: the configured size, or zero when the edge feature is
   * off or is a dilation.
   */
  function WidenPx(enSecondary: bool, isDilation: bool, erosionSizePx: nat): (n: nat)
    ensures n <= erosionSizePx
    ensures n != 0 <==> enSecondary && !isDilation && erosionSizePx != 0
  {
    if !enSecondary || isDilation then 0 else erosionSizePx
  }

  /** The slices folder's images as the passes see them. */
  datatype SliceFolder = SliceFolder(
    names: seq<string>,
    images: seq<Image>,
    frame: set<Pixel>,
    morph: Morphology,
    membraneFiles: map<string, Image>)

  /** The settings dictionary of one STL, as far as the image passes read it. */
  class StlSettings {
    var enMembranes: bool
    var membraneThickness: nat
    var membraneDilation: nat
    var membraneLayers: string
    var enSecondary: bool
    var enRoof: bool
    var secondaryIsErosion: bool
    var secondaryIsDilation: bool
    var expTimeMs: real
    var secondaryExpTimeMs: real
    var roofExpTimeMs: real
    var secondaryDilationSizePx: nat
    var secondaryErosionSizePx: nat
    var roofErosionSizePx: nat
    var secondaryLayersAbove: int
    var secondaryLayers: string

    /** The arguments `generate_secondary_images` receives, with the listed layers. */
    function SecondaryConfig(layers: seq<int>): (s: LegacySecondary.LegacySettings)
      reads this
      ensures s.narrowPx == NarrowPx(enSecondary, secondaryIsErosion, secondaryDilationSizePx)
      ensures s.widenPx == WidenPx(enSecondary, secondaryIsDilation, secondaryErosionSizePx)
      ensures s.layersToCheck == Some(layers)
    {
      LegacySecondary.LegacySettings(
        enSecondary, enRoof,
        NarrowPx(enSecondary, secondaryIsErosion, secondaryDilationSizePx),
        WidenPx(enSecondary, secondaryIsDilation, secondaryErosionSizePx),
        MembraneWidenDefault, roofErosionSizePx, secondaryLayersAbove,
        roofExpTimeMs, secondaryExpTimeMs, expTimeMs, Some(layers))
    }

    /** The arguments `generate_membrane_images` receives, with the listed layers. */
    function MembraneConfig(layers: seq<int>): (s: LegacyMembrane.MembraneSettings)
      reads this
      ensures s.layersToCheck == Some(layers)
    {
      LegacyMembrane.MembraneSettings(membraneThickness, membraneDilation, Some(layers))
    }

    /**
     * `membrane_images`: without the membrane feature, `True` and no files; otherwise
     * the layer list is expanded (a malformed one raises before any file is written)
     * and the membrane pass runs.
     */
    method MembraneImages(folder: SliceFolder, progress: Option<nat -> bool>) returns (r: Result<bool>, ops: seq<FileOp>)
      requires |folder.images| == |folder.names|
      ensures !enMembranes ==> r == Ok(true) && ops == []
      ensures enMembranes && ExpandStringRange(membraneLayers).None? ==> r.Err? && ops == []
      ensures enMembranes && ExpandStringRange(membraneLayers).Some? ==>
        var env := LegacyMembrane.MembraneEnv(folder.frame, folder.morph,
                                              MembraneConfig(ExpandStringRange(membraneLayers).value));
        var p := RunLayers(LegacyMembrane.Outcomes(folder.names, folder.images, env), progress);
        ops == p.ops && r == Verdict(p)
    {
      if enMembranes {
        var layers := ExpandStringRange(membraneLayers);
        if layers.None? {
          return Err("ValueError"), [];
        }
        var env := LegacyMembrane.MembraneEnv(folder.frame, folder.morph, MembraneConfig(layers.value));
        r, ops := LegacyMembrane.GenerateMembraneImages(folder.names, folder.images, env, progress);
        return;
      }
      return Ok(true), [];
    }

    /**
     * `secondary_images`: the dose check switches features off in the settings
     * themselves; with neither edge nor roof left, `True` and no files; otherwise the
     * layer list is expanded and the edge/roof pass runs.
     */
    method SecondaryImages(folder: SliceFolder, progress: Option<nat -> bool>) returns (r: Result<bool>, ops: seq<FileOp>)
      requires |folder.images| == |folder.names|
      modifies this`enSecondary, this`enRoof
      ensures (enSecondary, enRoof) ==
        CheckedSwitches(old(enSecondary), old(enRoof), secondaryExpTimeMs, roofExpTimeMs, expTimeMs)
      ensures !enSecondary && !enRoof ==> r == Ok(true) && ops == []
      ensures (enSecondary || enRoof) && ExpandStringRange(secondaryLayers).None? ==> r.Err? && ops == []
      ensures (enSecondary || enRoof) && ExpandStringRange(secondaryLayers).Some? ==>
        var env := LegacySecondary.LegacyEnv(folder.frame, folder.morph, folder.membraneFiles,
                                             SecondaryConfig(ExpandStringRange(secondaryLayers).value));
        var p := RunLayers(LegacySecondary.Outcomes(folder.names, folder.images, env), progress);
        ops == p.ops && r == Verdict(p)
    {
      var roofDose := roofExpTimeMs;
      var edgeDose := secondaryExpTimeMs;
      var bulkDose := expTimeMs;
      if roofDose == bulkDose && enRoof {
        enRoof := false;
      }
      if edgeDose == bulkDose && enSecondary {
        enSecondary := false;
      }
      if enSecondary || enRoof {
        var layers := ExpandStringRange(secondaryLayers);
        if layers.None? {
          return Err("ValueError"), [];
        }
        var env := LegacySecondary.LegacyEnv(folder.frame, folder.morph, folder.membraneFiles,
                                             SecondaryConfig(layers.value));
        r, ops := LegacySecondary.GenerateSecondaryImages(folder.names, folder.images, env, progress);
        return;
      }
      return Ok(true), [];
    }
  }

  // ---------------------------------------------------------------------------------
  // The output check
  // ---------------------------------------------------------------------------------

  /** `main_settings["zip_output"]` and the output path. */
  datatype MainSettings = MainSettings(zipOutput: bool, outputPath: Paths.Path)

  /**
   * The path whose existence refuses the print file: the zip file itself, or the folder
   * `parent / stem` the unzipped output would take.
   */
  function CheckedOutput(m: MainSettings): (p: Paths.Path)
    ensures m.zipOutput ==> p == m.outputPath
    ensures !m.zipOutput ==> Paths.Parent(m.outputPath) <= p && |p| <= |m.outputPath|
  {
    if m.zipOutput then m.outputPath
    else
      var stem := Paths.Stem(Paths.Name(m.outputPath));
      Paths.Parent(m.outputPath) + (if stem == "" then [] else [stem])
  }

  /** `generate_printfile` returns `False` at once when the checked path exists. */
  predicate OutputTaken(m: MainSettings, existing: set<Paths.Path>)
  {
    CheckedOutput(m) in existing
  }

  /**
   * Without zipping, an output `dir/name.ext` is refused exactly when the folder
   * `dir/name` exists, whether or not `dir/name.ext` does.
   */
  lemma UnzippedOutputTaken(dir: Paths.Path, stem: string, ext: string, existing: set<Paths.Path>)
    requires |stem| > 0 && |ext| > 0 && '.' !in ext
    ensures OutputTaken(MainSettings(false, dir + [stem + "." + ext]), existing) <==> dir + [stem] in existing
  {
    var p := dir + [stem + "." + ext];
    Paths.SuffixOfDotted(stem, ext);
    assert Paths.Name(p) == stem + "." + ext;
    assert Paths.Parent(p) == dir;
  }

  // ---------------------------------------------------------------------------------
  // Staging the STLs
  // ---------------------------------------------------------------------------------

  /** How many entries of `xs` equal `x` (`np.where(np.array(xs) == x)`). */
  function Occurrences(xs: seq<string>, x: string): (n: nat)
    ensures n <= |xs|
    ensures n == 0 <==> x !in xs
    decreases |xs|
  {
    if |xs| == 0 then 0
    else Occurrences(xs[..|xs| - 1], x) + (if xs[|xs| - 1] == x then 1 else 0)
  }

  /**
   * The folder id of an STL named `name`: its stem when the name occurs exactly once in
   * the STL list, otherwise the stem, '_' and the first eight characters of a fresh
   * UUID `uuid`.
   */
  function FolderId(stlList: seq<string>, name: string, uuid: string): (id: string)
    ensures StartsWith(id, Paths.Stem(name))
    ensures Occurrences(stlList, name) == 1 <==> id == Paths.Stem(name)
  {
    var stem := Paths.Stem(name);
    if Occurrences(stlList, name) == 1 then stem
    else
      var id := stem + "_" + uuid[..Min(8, |uuid|)];
      assert id[..|stem|] == stem;
      assert |id| > |stem|;
      id
  }

  /** A name occurring twice or more, or not at all, gets the UUID suffix. */
  lemma FolderIdShared(stlList: seq<string>, name: string, uuid: string)
    requires Occurrences(stlList, name) != 1
    ensures var stem := Paths.Stem(name);
      FolderId(stlList, name, uuid) == stem + "_" + uuid[..Min(8, |uuid|)]
      && |FolderId(stlList, name, uuid)| == |stem| + 1 + Min(8, |uuid|)
  {
  }

  /** The design files named in a `;`-separated field, without empties and the placeholder. */
  function DesignFiles(parts: seq<string>): (r: seq<string>)
    ensures |r| <= |parts|
    ensures forall k :: 0 <= k < |r| ==> r[k] != "" && r[k] != NoDesignFile && r[k] in parts
    decreases |parts|
  {
    if |parts| == 0 then []
    else
      var rest := DesignFiles(parts[1..]);
      if parts[0] != NoDesignFile && parts[0] != "" then [parts[0]] + rest else rest
  }

  /** The design files of the settings field `field`. */
  function ScadSources(field: string): seq<string>
  {
    DesignFiles(Split(field, ';'))
  }

  /** Joining real design files with ';' and reading them back gives them all, in order. */
  lemma {:induction false} ScadSourcesJoin(files: seq<string>)
    requires |files| > 0
    requires forall k :: 0 <= k < |files| ==> files[k] != "" && files[k] != NoDesignFile && ';' !in files[k]
    ensures ScadSources(Join(files, [';'])) == files
  {
    SplitJoin(files, ';');
    DesignFilesKeep(files);
  }

  lemma {:induction false} DesignFilesKeep(files: seq<string>)
    requires forall k :: 0 <= k < |files| ==> files[k] != "" && files[k] != NoDesignFile
    ensures DesignFiles(files) == files
    decreases |files|
  {
    if |files| > 0 {
      DesignFilesKeep(files[1..]);
    }
  }

  /** The placeholder alone, or an empty field, names no design file. */
  lemma NoDesignFiles()
    ensures ScadSources(NoDesignFile) == []
    ensures ScadSources("") == []
  {
    SplitNoSeparator(NoDesignFile, ';');
    SplitNoSeparator("", ';');
  }

  /** `shutil.copyfile(source, target)` */
  datatype Copy = Copy(source: string, target: string)

  /** `f"{folder}/{Path(path).name}"` */
  function InFolder(folder: string, path: string): string
  {
    folder + "/" + Paths.Name(Paths.Parse(path))
  }

  /** The settings of one STL the staging reads. */
  datatype StlEntry = StlEntry(stlPath: string, scadPath: string)

  /** One staged STL: its id, its folder, the design files copied and the STL copied. */
  datatype Staged = Staged(id: string, folder: string, scadCopies: seq<Copy>, stlCopy: Copy)

  /** The copies of the design files `sources` into `folder`, in order. */
  function ScadCopies(folder: string, sources: seq<string>): (r: seq<Copy>)
    ensures |r| == |sources|
    ensures forall k :: 0 <= k < |r| ==> r[k].source == sources[k] && StartsWith(r[k].target, folder + "/")
  {
    seq(|sources|, k requires 0 <= k < |sources| => Copy(sources[k], InFolder(folder, sources[k])))
  }

  /** How the staging loop treats the STL `entry` given the UUID it would draw. */
  function Stage(temp: string, stlList: seq<string>, entry: StlEntry, uuid: string): (s: Staged)
    ensures s.folder == temp + "/" + s.id
    ensures s.scadCopies == ScadCopies(s.folder, ScadSources(entry.scadPath))
    ensures s.stlCopy == Copy(entry.stlPath, InFolder(s.folder, entry.stlPath))
  {
    var name := Paths.Name(Paths.Parse(entry.stlPath));
    var id := FolderId(stlList, name, uuid);
    var folder := temp + "/" + id;
    Staged(id, folder, ScadCopies(folder, ScadSources(entry.scadPath)), Copy(entry.stlPath, InFolder(folder, entry.stlPath)))
  }

  /**
   * Every file staged for an STL lands in the folder of its id, which lies in the
   * temporary folder and starts with the STL's stem.
   */
  lemma StagedInFolder(temp: string, stlList: seq<string>, entry: StlEntry, uuid: string)
    ensures var s := Stage(temp, stlList, entry, uuid);
      StartsWith(s.folder, temp + "/")
      && StartsWith(s.id, Paths.Stem(Paths.Name(Paths.Parse(entry.stlPath))))
      && StartsWith(s.stlCopy.target, s.folder + "/")
      && forall k :: 0 <= k < |s.scadCopies| ==> StartsWith(s.scadCopies[k].target, s.folder + "/")
  {
    var s := Stage(temp, stlList, entry, uuid);
    assert s.folder[..|temp + "/"|] == temp + "/";
    assert s.stlCopy.target[..|s.folder + "/"|] == s.folder + "/";
  }

  /** The design-file loop of one STL. */
  method CopyDesignFiles(folder: string, field: string) returns (copies: seq<Copy>)
    ensures copies == ScadCopies(folder, ScadSources(field))
  {
    var paths := Split(field, ';');
    ghost var kept: seq<string> := [];
    copies := [];
    for i := 0 to |paths|
      invariant kept + DesignFiles(paths[i..]) == DesignFiles(paths)
      invariant copies == ScadCopies(folder, kept)
    {
      assert paths[i..][1..] == paths[i + 1..];
      var path := paths[i];
      if path != NoDesignFile && path != "" {
        copies := copies + [Copy(path, InFolder(folder, path))];
        kept := kept + [path];
      }
    }
    assert paths[|paths|..] == [];
  }

  /**
   * The staging loop of `generate_printfile`: one folder per STL of the list, reading
   * the STL's settings at the same index (too few settings raise `IndexError`).
   * `uuids[i]` is the UUID drawn for STL `i` when its name is not unique.
   */
  method StageStls(temp: string, stlList: seq<string>, settings: seq<StlEntry>, uuids: seq<string>)
    returns (r: Result<seq<Staged>>)
    requires |uuids| >= |stlList|
    ensures r.Err? <==> |settings| < |stlList|
    ensures r.Ok? ==> (|r.value| == |stlList|
      && forall i :: 0 <= i < |stlList| ==> r.value[i] == Stage(temp, stlList, settings[i], uuids[i]))
  {
    var stls: seq<Staged> := [];
    for i := 0 to |stlList|
      invariant i <= |settings| || i == 0
      invariant |stls| == i
      invariant forall k :: 0 <= k < i ==> stls[k] == Stage(temp, stlList, settings[k], uuids[k])
    {
      if i >= |settings| {
        return Err("IndexError");
      }
      var entry := settings[i];
      var name := Paths.Name(Paths.Parse(entry.stlPath));
      var id := FolderId(stlList, name, uuids[i]);
      var folder := temp + "/" + id;
      var scadCopies := CopyDesignFiles(folder, entry.scadPath);
      var stlCopy := Copy(entry.stlPath, InFolder(folder, entry.stlPath));
      stls := stls + [Staged(id, folder, scadCopies, stlCopy)];
    }
    return Ok(stls);
  }

  /**
   * The start of `generate_printfile`: `False` when the checked output path exists,
   * otherwise the staged STLs.
   */
  method GeneratePrintfile(m: MainSettings, existing: set<Paths.Path>, temp: string, stlList: seq<string>,
                           settings: seq<StlEntry>, uuids: seq<string>)
    returns (r: Result<Option<seq<Staged>>>)
    requires |uuids| >= |stlList|
    ensures OutputTaken(m, existing) ==> r == Ok(None)
    ensures !OutputTaken(m, existing) ==> (r.Err? <==> |settings| < |stlList|)
    ensures r.Ok? && r.value.Some? ==> (|r.value.value| == |stlList|
      && forall i :: 0 <= i < |stlList| ==> r.value.value[i] == Stage(temp, stlList, settings[i], uuids[i]))
  {
    if m.zipOutput && m.outputPath in existing {
      return Ok(None);
    } else if !m.zipOutput && CheckedOutput(m) in existing {
      return Ok(None);
    }
    var staged := StageStls(temp, stlList, settings, uuids);
    if staged.Err? {
      return Err(staged.msg);
    }
    return Ok(Some(staged.value));
  }
}
