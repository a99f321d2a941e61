/**
 * The decision logic of the pymfcad preview server: which folder supplies the previews,
 * how a `.glb` file name becomes a display name, a type and a version, and which request
 * paths are accepted. The filesystem is given as sets of directories and files, a listing
 * per folder and a resolution function.
 */
module PymfcadServer {
  import opened Wrappers
  import opened Text
  import opened Paths
  import opened Sorting
  import opened GlbFiles

  /** The filesystem and process context the routes consult. */
  datatype Env = Env(
    cwd: Path,
    visualizerRoot: Path,
    dirs: set<Path>,
    files: set<Path>,
    listing: Path -> seq<DirEntry>)

  /** One record of `/glb_list.json`; modification time and size are not modelled. */
  datatype GlbEntry = GlbEntry(name: string, kind: Kind, file: string, version: string, baseName: string)

  datatype Body =
    | Error(message: string)
    | Files(list: seq<GlbEntry>)
    | Info(source: string, previewDir: Option<Path>)
    | Send(dir: Path, rel: string)
    | Settings(file: Path)
    | Selected(selection: Option<Path>)

  datatype Reply = Reply(status: int, body: Body)

  /** What Flask answers when a handler raises. */
  const InternalError: Reply := Reply(500, Error("Internal Server Error"))

  /**
   * `data.get("path")` of a posted JSON object: a falsy value (absent, null, "", 0, false,
   * an empty list or object), a string, or a truthy value that is not a string.
   */
  datatype PathField = NoPath | Text(text: string) | NotText

  /**
   * `request.get_json(silent=True) or {}`: a falsy or unparsable body counts as an empty
   * object, so it is `Object(NoPath)`; `Truthy` is a non-empty list, a non-empty string, a
   * non-zero number or `true`, which have no `.get`.
   */
  datatype PostBody = Object(path: PathField) | Truthy

  // ---------------------------------------------------------------------------------
  // Version suffix: `^(.*)__v(\d+)$`, case-insensitive
  // ---------------------------------------------------------------------------------

  /** Number of ASCII digits at the end of `s`. */
  function TrailingDigits(s: string): (k: nat)
    ensures k <= |s| && AllDigits(s[|s| - k..])
    ensures k < |s| ==> !IsDigit(s[|s| - k - 1])
    decreases |s|
  {
    if |s| > 0 && IsDigit(s[|s| - 1]) then
      var k := TrailingDigits(s[..|s| - 1]);
      DigitsExtend(s, k);
      k + 1
    else 0
  }

  /** A digit run before a final digit extends to that digit. */
  lemma DigitsExtend(s: string, k: nat)
    requires 0 < |s| && k < |s| && IsDigit(s[|s| - 1]) && AllDigits(s[..|s| - 1][|s| - 1 - k..])
    ensures AllDigits(s[|s| - (k + 1)..])
  {
    var t := s[|s| - (k + 1)..];
    var u := s[..|s| - 1][|s| - 1 - k..];
    forall j | 0 <= j < |t| ensures IsDigit(t[j]) {
      if j < k {
        assert t[j] == u[j];
      }
    }
  }

  /** `stem` is `base`, then "__v" in any case, then `digits`, then possibly one final newline. */
  predicate VersionShaped(stem: string, base: string, digits: string)
  {
    var n := |base| + 3 + |digits|;
    n <= |stem| && stem[..|base|] == base && Lower(stem[|base|..|base| + 3]) == "__v" &&
    stem[|base| + 3..n] == digits && (n == |stem| || stem[n..] == "\n")
  }

  /**
   * The regular-expression match: the digits are the whole final digit run (before one
   * optional trailing newline, where `$` may also match) and group 1 holds no newline.
   */
  function VersionMatch(stem: string): (m: Option<(string, string)>)
    ensures m.Some? ==>
              |m.value.1| > 0 && AllDigits(m.value.1) && '\n' !in m.value.0 &&
              VersionShaped(stem, m.value.0, m.value.1)
  {
    var u := if |stem| > 0 && stem[|stem| - 1] == '\n' then stem[..|stem| - 1] else stem;
    var k := TrailingDigits(u);
    if k > 0 && |u| >= k + 3 && Lower(u[|u| - k - 3..|u| - k]) == "__v" && '\n' !in u[..|u| - k - 3] then
      assert stem[..|u|] == u;
      Some((u[..|u| - k - 3], u[|u| - k..]))
    else None
  }

  /** (base_name, version) of a stem: "v" and the digits when it matches, else the stem and "v0". */
  function SplitVersion(stem: string): (r: (string, string))
  {
    match VersionMatch(stem)
    case Some((base, digits)) => (base, "v" + digits)
    case None => (stem, "v0")
  }

  lemma {:induction false} TrailingDigitsOf(a: string, d: string)
    requires AllDigits(d) && (|a| == 0 || !IsDigit(a[|a| - 1]))
    ensures TrailingDigits(a + d) == |d|
    decreases |d|
  {
    if |d| == 0 {
      assert a + d == a;
    } else {
      assert (a + d)[..|a + d| - 1] == a + d[..|d| - 1];
      TrailingDigitsOf(a, d[..|d| - 1]);
    }
  }

  /** Writing a base name with a version suffix and reading it back gives both parts. */
  lemma VersionRoundTrip(base: string, digits: string)
    requires '\n' !in base && |digits| > 0 && AllDigits(digits)
    ensures SplitVersion(base + "__v" + digits) == (base, "v" + digits)
  {
    var stem := base + "__v" + digits;
    TrailingDigitsOf(base + "__v", digits);
    assert stem[|stem| - 1] == digits[|digits| - 1];
    assert stem[..|base|] == base;
    assert stem[|base|..|base| + 3] == "__v";
    assert stem[|stem| - |digits|..] == digits;
    assert Lower("__v") == "__v";
    assert VersionMatch(stem) == Some((base, digits));
  }

  /** A stem that ends in neither a digit nor a newline keeps its name and gets version "v0". */
  lemma UnversionedStem(stem: string)
    requires |stem| == 0 || (!IsDigit(stem[|stem| - 1]) && stem[|stem| - 1] != '\n')
    ensures SplitVersion(stem) == (stem, "v0")
  {
    assert TrailingDigits(stem) == 0;
  }

  // ---------------------------------------------------------------------------------
  // Display name and type
  // ---------------------------------------------------------------------------------

  /** The default and burn-in names lose their `_default_` markers; nothing left reads "Top-level". */
  function CleanDefault(s: string): (r: string)
    ensures |r| > 0
  {
    var t := Replace(Replace(s, "._default_", ""), "_default_", "");
    if t == "" then "Top-level" else t
  }

  /** The regional type a lower-cased key selects after its "regional_" prefix, and that sub-prefix's length. */
  function RegionalKind(name: string): (r: (Kind, nat))
    ensures r.1 <= |name|
  {
    if StartsWith(name, MembranePrefix) then (RegionalMembrane, 18)
    else if StartsWith(name, PositionPrefix) then (RegionalPosition, 18)
    else if StartsWith(name, ExposurePrefix) then (RegionalExposure, 18)
    else if StartsWith(name, SecondaryDosePrefix) then (RegionalSecondaryDose, 24)
    else if StartsWith(name, DefaultExposurePrefix) then (RegionalDefaultExposure, 26)
    else if StartsWith(name, DefaultPositionPrefix) then (RegionalDefaultPosition, 26)
    else if StartsWith(name, BurnInPrefix) then (RegionalBurnIn, 7)
    else (RegionalOther, 0)
  }

  /** The display name and type of a lower-cased key after its "regional_" prefix. */
  function Regional(name: string): (r: (string, Kind))
    ensures r.1 != Unknown
  {
    var (kind, n) := RegionalKind(name);
    var shown := Capitalize(name[n..]);
    if kind in {RegionalDefaultExposure, RegionalDefaultPosition, RegionalBurnIn} then (CleanDefault(shown), kind)
    else (shown, kind)
  }

  /** (display name, type) of a base name, decided on its lower-cased form. */
  function Classify(baseName: string): (r: (string, Kind))
    ensures r.1 == Unknown ==> r.0 == baseName
  {
    var key := Lower(baseName);
    if StartsWith(key, "bulk_") then (Capitalize(key[5..]), Bulk)
    else if StartsWith(key, "void_") then (Capitalize(key[5..]), Void)
    else if StartsWith(key, "regional_") then Regional(key[9..])
    else if key == "ports" then ("Unconnected Ports", Ports)
    else if key == "device" then ("Device", Device)
    else if key == "bounding_box" then ("Bounding Box", BoundingBox)
    else (baseName, Unknown)
  }

  /** The "bulk_" and "void_" prefixes, in any case, give their type and the capitalised rest. */
  lemma BulkVoidPrefix(rest: string)
    ensures Classify("bulk_" + rest) == (Capitalize(Lower(rest)), Bulk)
    ensures Classify("void_" + rest) == (Capitalize(Lower(rest)), Void)
  {
    LowerConcat("bulk_", rest);
    LowerConcat("void_", rest);
    assert Lower("bulk_") == "bulk_" && Lower("void_") == "void_";
    assert ("bulk_" + Lower(rest))[5..] == Lower(rest);
    assert ("void_" + Lower(rest))[5..] == Lower(rest);
  }

  /** Any name behind "regional_", in any case, is decided by the regional rules on its lower-cased rest. */
  lemma RegionalPrefix(rest: string)
    ensures Classify("regional_" + rest) == Regional(Lower(rest))
  {
    var key := "regional_" + Lower(rest);
    LowerConcat("regional_", rest);
    assert Lower("regional_") == "regional_";
    assert Lower("regional_" + rest) == key;
    StartsWithConcat("regional_", Lower(rest));
    FirstCharDiffers(key, "bulk_");
    FirstCharDiffers(key, "void_");
    assert key[9..] == Lower(rest);
  }

  /** Each regional sub-prefix selects its type, whatever follows it. */
  lemma RegionalSubPrefixKinds(rest: string)
    ensures RegionalKind(MembranePrefix + rest).0 == RegionalMembrane
    ensures RegionalKind(PositionPrefix + rest).0 == RegionalPosition
    ensures RegionalKind(ExposurePrefix + rest).0 == RegionalExposure
    ensures RegionalKind(SecondaryDosePrefix + rest).0 == RegionalSecondaryDose
    ensures RegionalKind(DefaultExposurePrefix + rest).0 == RegionalDefaultExposure
    ensures RegionalKind(DefaultPositionPrefix + rest).0 == RegionalDefaultPosition
    ensures RegionalKind(BurnInPrefix + rest).0 == RegionalBurnIn
  {
    StartsWithConcat(MembranePrefix, rest);
    var x := PositionPrefix + rest;
    StartsWithConcat(PositionPrefix, rest);
    PrefixesDiffer(x, PositionPrefix, MembranePrefix, 0);
    x := ExposurePrefix + rest;
    StartsWithConcat(ExposurePrefix, rest);
    PrefixesDiffer(x, ExposurePrefix, MembranePrefix, 0);
    PrefixesDiffer(x, ExposurePrefix, PositionPrefix, 0);
    x := SecondaryDosePrefix + rest;
    StartsWithConcat(SecondaryDosePrefix, rest);
    PrefixesDiffer(x, SecondaryDosePrefix, MembranePrefix, 0);
    PrefixesDiffer(x, SecondaryDosePrefix, PositionPrefix, 0);
    PrefixesDiffer(x, SecondaryDosePrefix, ExposurePrefix, 0);
    x := DefaultExposurePrefix + rest;
    StartsWithConcat(DefaultExposurePrefix, rest);
    PrefixesDiffer(x, DefaultExposurePrefix, MembranePrefix, 0);
    PrefixesDiffer(x, DefaultExposurePrefix, PositionPrefix, 0);
    PrefixesDiffer(x, DefaultExposurePrefix, ExposurePrefix, 0);
    PrefixesDiffer(x, DefaultExposurePrefix, SecondaryDosePrefix, 0);
    x := DefaultPositionPrefix + rest;
    StartsWithConcat(DefaultPositionPrefix, rest);
    PrefixesDiffer(x, DefaultPositionPrefix, MembranePrefix, 0);
    PrefixesDiffer(x, DefaultPositionPrefix, PositionPrefix, 0);
    PrefixesDiffer(x, DefaultPositionPrefix, ExposurePrefix, 0);
    PrefixesDiffer(x, DefaultPositionPrefix, SecondaryDosePrefix, 0);
    PrefixesDiffer(x, DefaultPositionPrefix, DefaultExposurePrefix, 8);
    x := BurnInPrefix + rest;
    StartsWithConcat(BurnInPrefix, rest);
    PrefixesDiffer(x, BurnInPrefix, MembranePrefix, 0);
    PrefixesDiffer(x, BurnInPrefix, PositionPrefix, 0);
    PrefixesDiffer(x, BurnInPrefix, ExposurePrefix, 0);
    PrefixesDiffer(x, BurnInPrefix, SecondaryDosePrefix, 0);
    PrefixesDiffer(x, BurnInPrefix, DefaultExposurePrefix, 0);
    PrefixesDiffer(x, BurnInPrefix, DefaultPositionPrefix, 0);
  }

  /** A regional name that starts with none of the sub-prefixes' first letters keeps the plain regional type. */
  lemma RegionalOtherwise(name: string)
    requires |name| > 0 && name[0] !in "mpesdb"
    ensures RegionalKind(name) == (RegionalOther, 0)
    ensures Regional(name) == (Capitalize(name), RegionalOther)
  {
    FirstCharDiffers(name, MembranePrefix);
    FirstCharDiffers(name, PositionPrefix);
    FirstCharDiffers(name, ExposurePrefix);
    FirstCharDiffers(name, SecondaryDosePrefix);
    FirstCharDiffers(name, DefaultExposurePrefix);
    FirstCharDiffers(name, DefaultPositionPrefix);
    FirstCharDiffers(name, BurnInPrefix);
    assert name[0..] == name;
  }

  /** A base name is of unknown type exactly when no prefix and no fixed name applies. */
  lemma UnknownExactly(baseName: string)
    ensures var key := Lower(baseName);
            Classify(baseName).1 == Unknown <==>
              !StartsWith(key, "bulk_") && !StartsWith(key, "void_") && !StartsWith(key, "regional_") &&
              key != "ports" && key != "device" && key != "bounding_box"
  {
  }

  /** Apart from the unknown type, only the lower-cased base name matters. */
  lemma {:induction false} ClassifyIgnoresCase(a: string, b: string)
    requires Lower(a) == Lower(b) && Classify(a).1 != Unknown
    ensures Classify(a) == Classify(b)
  {
  }

  /** A default or burn-in file with nothing after its prefix is named "Top-level". */
  lemma TopLevelNames()
    ensures Regional(BurnInPrefix) == ("Top-level", RegionalBurnIn)
    ensures Regional(DefaultExposurePrefix) == ("Top-level", RegionalDefaultExposure)
    ensures Regional(DefaultPositionPrefix) == ("Top-level", RegionalDefaultPosition)
  {
    RegionalSubPrefixKinds("");
    assert BurnInPrefix + "" == BurnInPrefix;
    assert DefaultExposurePrefix + "" == DefaultExposurePrefix;
    assert DefaultPositionPrefix + "" == DefaultPositionPrefix;
    TopLevelOf(BurnInPrefix);
    TopLevelOf(DefaultExposurePrefix);
    TopLevelOf(DefaultPositionPrefix);
  }

  /** A key that is exactly a default or burn-in sub-prefix is displayed as "Top-level". */
  lemma TopLevelOf(name: string)
    requires RegionalKind(name).1 == |name|
    requires RegionalKind(name).0 in {RegionalDefaultExposure, RegionalDefaultPosition, RegionalBurnIn}
    ensures Regional(name) == ("Top-level", RegionalKind(name).0)
  {
    assert name[|name|..] == "";
    assert Capitalize("") == "";
    assert Replace(Replace("", "._default_", ""), "_default_", "") == "";
  }

  // ---------------------------------------------------------------------------------
  // Listing
  // ---------------------------------------------------------------------------------

  predicate LowerNameLe(a: DirEntry, b: DirEntry) { StrLe(Lower(a.name), Lower(b.name)) }

  /** `sorted(entries, key=lambda p: p.name.lower())` */
  function SortByLowerName(entries: seq<DirEntry>): (r: seq<DirEntry>)
    ensures multiset(r) == multiset(entries) && SortedBy(r, LowerNameLe)
  {
    KeyOrderIsTotalPreorder(LowerNameLe, (e: DirEntry) => Lower(e.name));
    Sort(entries, LowerNameLe)
  }

  /** The record of one listed file; `quote` is the URL quoting of the relative path. */
  function Describe(e: DirEntry, quote: string -> string): (g: GlbEntry)
    ensures (g.baseName, g.version) == SplitVersion(Stem(e.name))
    ensures (g.name, g.kind) == Classify(g.baseName)
    ensures StartsWith(g.file, "/preview_file?path=")
  {
    var (base, version) := SplitVersion(Stem(e.name));
    var (name, kind) := Classify(base);
    GlbEntry(name, kind, "/preview_file?path=" + quote(e.name), version, base)
  }

  /** The records of the `.glb` files among `entries`, in the order given. */
  function Records(entries: seq<DirEntry>, quote: string -> string): (r: seq<GlbEntry>)
    decreases |entries|
  {
    if |entries| == 0 then []
    else
      var last := entries[|entries| - 1];
      Records(entries[..|entries| - 1], quote) + (if IsGlb(last) then [Describe(last, quote)] else [])
  }

  /** The records of one more entry are the records so far and that entry's record, if it is a GLB file. */
  lemma RecordsNext(entries: seq<DirEntry>, i: nat, quote: string -> string)
    requires i < |entries|
    ensures Records(entries[..i + 1], quote)
            == Records(entries[..i], quote) + (if IsGlb(entries[i]) then [Describe(entries[i], quote)] else [])
  {
    assert entries[..i + 1][..i] == entries[..i];
  }

  /** Record k describes the k-th `.glb` entry. */
  lemma {:induction false} RecordsDescribeGlbFiles(entries: seq<DirEntry>, quote: string -> string)
    ensures var f := Filter(entries, IsGlb);
            |Records(entries, quote)| == |f| &&
            forall k :: 0 <= k < |f| ==> Records(entries, quote)[k] == Describe(f[k], quote)
    decreases |entries|
  {
    if |entries| > 0 {
      RecordsDescribeGlbFiles(entries[..|entries| - 1], quote);
    }
  }

  /** `list_glb_files`: one record per `.glb` file, by lower-cased name. */
  method ListGlbFiles(entries: seq<DirEntry>, quote: string -> string) returns (list: seq<GlbEntry>)
    ensures list == Records(SortByLowerName(entries), quote)
  {
    var sorted := SortByLowerName(entries);
    list := [];
    var i := 0;
    while i < |sorted|
      invariant 0 <= i <= |sorted|
      invariant list == Records(sorted[..i], quote)
    {
      RecordsNext(sorted, i, quote);
      var path := sorted[i];
      if IsGlb(path) {
        list := list + [Describe(path, quote)];
      }
      i := i + 1;
    }
    assert sorted[..|sorted|] == sorted;
  }

  /** The listed files are exactly the `.glb` files of the folder, each once, by lower-cased name. */
  lemma ListingIsSortedGlbFiles(entries: seq<DirEntry>)
    ensures var f := Filter(SortByLowerName(entries), IsGlb);
            SortedBy(f, LowerNameLe) &&
            forall e :: multiset(f)[e] == if IsGlb(e) then multiset(entries)[e] else 0
  {
    var s := SortByLowerName(entries);
    FilterSorted(s, IsGlb, LowerNameLe);
    forall e ensures multiset(Filter(s, IsGlb))[e] == if IsGlb(e) then multiset(entries)[e] else 0 {
      FilterCount(s, IsGlb, e);
    }
  }

  // ---------------------------------------------------------------------------------
  // Preview folder
  // ---------------------------------------------------------------------------------

  function CwdPreview(env: Env): Path { Child(env.cwd, "_visualization") }
  function DemoDir(env: Env): Path { Child(env.visualizerRoot, "demo_device") }

  /** `get_glb_dir`: the selected folder, else cwd/_visualization, else the demo device. */
  function GlbDir(selected: Option<Path>, env: Env): (r: Option<Path>)
    ensures r.Some? ==> r.value in env.dirs
    ensures selected.Some? && selected.value in env.dirs ==> r == selected
    ensures r.None? <==>
              (selected.None? || selected.value !in env.dirs) &&
              CwdPreview(env) !in env.dirs && DemoDir(env) !in env.dirs
  {
    if selected.Some? && selected.value in env.dirs then selected
    else if CwdPreview(env) in env.dirs then Some(CwdPreview(env))
    else if DemoDir(env) in env.dirs then Some(DemoDir(env))
    else None
  }

  /** `/preview_info.json`: which of the three folders is in use. */
  function PreviewInfo(selected: Option<Path>, env: Env): (r: Reply)
    ensures r.status == 200 && r.body.Info?
    ensures r.body.previewDir == GlbDir(selected, env)
    ensures r.body.source == "none" <==> GlbDir(selected, env).None?
    ensures r.body.source == "custom" <==> selected.Some? && selected.value in env.dirs
    ensures r.body.source == "cwd/_visualization" <==>
              (selected.None? || selected.value !in env.dirs) && CwdPreview(env) in env.dirs
    ensures r.body.source == "demo" <==>
              (selected.None? || selected.value !in env.dirs) && CwdPreview(env) !in env.dirs &&
              DemoDir(env) in env.dirs
  {
    var dir := GlbDir(selected, env);
    if dir.None? then Reply(200, Info("none", None))
    else if selected.Some? && dir.value == selected.value then Reply(200, Info("custom", dir))
    else if dir.value == CwdPreview(env) then
      assert CwdPreview(env)[|env.cwd|] == "_visualization";
      Reply(200, Info("cwd/_visualization", dir))
    else
      assert DemoDir(env)[|env.visualizerRoot|] == "demo_device";
      Reply(200, Info("demo", dir))
  }

  /** `/glb_list.json`: 404 without a folder, else the listing of the folder in use. */
  method GlbList(selected: Option<Path>, env: Env, quote: string -> string) returns (r: Reply)
    ensures GlbDir(selected, env).None? ==> r == Reply(404, Error("No valid .glb directory found."))
    ensures GlbDir(selected, env).Some? ==>
              r == Reply(200, Files(Records(SortByLowerName(env.listing(GlbDir(selected, env).value)), quote)))
  {
    var dir := GlbDir(selected, env);
    if dir.None? {
      return Reply(404, Error("No valid .glb directory found."));
    }
    var list := ListGlbFiles(env.listing(dir.value), quote);
    r := Reply(200, Files(list));
  }

  function OrEmpty(arg: Option<string>): string { if arg.Some? then arg.value else "" }

  /** A preview folder is in use and the `path` argument is not blank. */
  predicate Requested(selected: Option<Path>, env: Env, arg: Option<string>)
  {
    GlbDir(selected, env).Some? && Strip(OrEmpty(arg)) != ""
  }

  /** `(preview_dir / rel_path).resolve()` for a request that has both. */
  function Candidate(selected: Option<Path>, env: Env, arg: Option<string>, resolve: (Path, string) -> Path): Path
    requires Requested(selected, env, arg)
  {
    resolve(GlbDir(selected, env).value, Strip(OrEmpty(arg)))
  }

  /** The request names a path inside the preview folder. */
  predicate Inside(selected: Option<Path>, env: Env, arg: Option<string>, resolve: (Path, string) -> Path)
  {
    Requested(selected, env, arg) && Within(Candidate(selected, env, arg, resolve), GlbDir(selected, env).value)
  }

  /**
   * `/preview_file`: the requested path, relative to the folder in use, is served only
   * when it resolves to a file inside that folder. `resolve(dir, rel)` is `(dir / rel).resolve()`.
   */
  function PreviewFile(selected: Option<Path>, env: Env, arg: Option<string>, resolve: (Path, string) -> Path): (r: Reply)
    ensures GlbDir(selected, env).None? ==> r.status == 404
    ensures GlbDir(selected, env).Some? && Strip(OrEmpty(arg)) == "" ==> r.status == 400
    ensures GlbDir(selected, env).Some? && Strip(OrEmpty(arg)) != "" &&
            !Within(resolve(GlbDir(selected, env).value, Strip(OrEmpty(arg))), GlbDir(selected, env).value) ==>
              r == Reply(400, Error("Path must be inside preview folder"))
    ensures r.status == 200 <==> r.body.Send?
    ensures r.body.Send? ==>
              Some(r.body.dir) == GlbDir(selected, env) && r.body.rel == Strip(OrEmpty(arg)) && r.body.rel != "" &&
              Within(resolve(r.body.dir, r.body.rel), r.body.dir) && resolve(r.body.dir, r.body.rel) in env.files
    ensures Inside(selected, env, arg, resolve) && Candidate(selected, env, arg, resolve) in env.files ==>
              r == Reply(200, Send(GlbDir(selected, env).value, Strip(OrEmpty(arg))))
    ensures Inside(selected, env, arg, resolve) && Candidate(selected, env, arg, resolve) !in env.files ==>
              r == Reply(404, Error("File not found"))
  {
    var dir := GlbDir(selected, env);
    if dir.None? then Reply(404, Error("No preview directory"))
    else
      var rel := Strip(OrEmpty(arg));
      if rel == "" then Reply(400, Error("path required"))
      else
        var candidate := resolve(dir.value, rel);
        if !Within(candidate, dir.value) then Reply(400, Error("Path must be inside preview folder"))
        else if candidate !in env.files then Reply(404, Error("File not found"))
        else Reply(200, Send(dir.value, rel))
  }

  /**
   * `/preview_settings_file`: as `/preview_file`, and the file must have a ".json" suffix
   * in any case and hold valid JSON (`validJson`).
   */
  function PreviewSettingsFile(selected: Option<Path>, env: Env, arg: Option<string>,
                               resolve: (Path, string) -> Path, validJson: Path -> bool): (r: Reply)
    ensures GlbDir(selected, env).None? ==> r.status == 404
    ensures GlbDir(selected, env).Some? && Strip(OrEmpty(arg)) == "" ==> r.status == 400
    ensures GlbDir(selected, env).Some? && Strip(OrEmpty(arg)) != "" &&
            !Within(resolve(GlbDir(selected, env).value, Strip(OrEmpty(arg))), GlbDir(selected, env).value) ==>
              r == Reply(400, Error("Path must be inside preview folder"))
    ensures r.status == 200 <==> r.body.Settings?
    ensures r.body.Settings? ==>
              GlbDir(selected, env).Some? && Within(r.body.file, GlbDir(selected, env).value) &&
              r.body.file in env.files && Lower(Suffix(Name(r.body.file))) == ".json" && validJson(r.body.file)
    ensures Inside(selected, env, arg, resolve) &&
            (Candidate(selected, env, arg, resolve) !in env.files ||
             Lower(Suffix(Name(Candidate(selected, env, arg, resolve)))) != ".json") ==>
              r == Reply(404, Error("File not found"))
    ensures Inside(selected, env, arg, resolve) && Candidate(selected, env, arg, resolve) in env.files &&
            Lower(Suffix(Name(Candidate(selected, env, arg, resolve)))) == ".json" ==>
              r == (if validJson(Candidate(selected, env, arg, resolve))
                    then Reply(200, Settings(Candidate(selected, env, arg, resolve)))
                    else Reply(400, Error("Invalid JSON")))
  {
    var dir := GlbDir(selected, env);
    if dir.None? then Reply(404, Error("No preview directory"))
    else
      var rel := Strip(OrEmpty(arg));
      if rel == "" then Reply(400, Error("path required"))
      else
        var candidate := resolve(dir.value, rel);
        if !Within(candidate, dir.value) then Reply(400, Error("Path must be inside preview folder"))
        else if candidate !in env.files || Lower(Suffix(Name(candidate))) != ".json" then Reply(404, Error("File not found"))
        else if !validJson(candidate) then Reply(400, Error("Invalid JSON"))
        else Reply(200, Settings(candidate))
  }

  /** A settings file is served exactly when the same path would be served as a plain file and is valid JSON. */
  lemma SettingsFileIsPreviewFile(selected: Option<Path>, env: Env, arg: Option<string>,
                                  resolve: (Path, string) -> Path, validJson: Path -> bool)
    ensures var s := PreviewSettingsFile(selected, env, arg, resolve, validJson);
            var f := PreviewFile(selected, env, arg, resolve);
            s.status == 200 <==>
              f.status == 200 && Lower(Suffix(Name(resolve(f.body.dir, f.body.rel)))) == ".json" &&
              validJson(resolve(f.body.dir, f.body.rel))
  {
    var dir := GlbDir(selected, env);
    var rel := Strip(OrEmpty(arg));
    if dir.Some? && rel != "" {
      var candidate := resolve(dir.value, rel);
      var s := PreviewSettingsFile(selected, env, arg, resolve, validJson);
      var f := PreviewFile(selected, env, arg, resolve);
      if Within(candidate, dir.value) && candidate in env.files {
        assert f == Reply(200, Send(dir.value, rel));
      } else {
        assert f.status != 200 && s.status != 200;
      }
    }
  }

  /** `/<filename>`: a name ending in ".glb" is served from the working directory, anything else is 404. */
  function ServeGlb(filename: string, env: Env): (r: Reply)
    ensures r.status == 200 <==> EndsWith(filename, ".glb")
    ensures r.status == 200 ==> r.body == Send(env.cwd, filename)
  {
    if EndsWith(filename, ".glb") then Reply(200, Send(env.cwd, filename)) else Reply(404, Error("Not Found"))
  }

  /** `any(folder.glob("*.glb"))`: some entry's name ends in ".glb" (case-sensitive). */
  predicate HasGlbEntry(entries: seq<DirEntry>)
  {
    exists k :: 0 <= k < |entries| && EndsWith(entries[k].name, ".glb")
  }

  /** The folder selection that `/set_preview_dir` changes, shared by all routes. */
  class PreviewServer {
    var selected: Option<Path>

    constructor()
      ensures selected == None
    {
      selected := None;
    }

    /**
     * `/set_preview_dir`: a body that is not an object, or a truthy `path` that is not a
     * string, raises (`.get` or `.strip` is missing) and leaves the selection as it was; an
     * empty path clears the selection; a folder that is missing or has no ".glb" entry is
     * refused with 400 and the selection kept; otherwise it is selected.
     * `resolveInput(text)` is the resolved absolute or working-directory-relative path.
     */
    method SetPreviewDir(body: PostBody, env: Env, resolveInput: string -> Path) returns (r: Reply)
      modifies this
      ensures body.Truthy? || body.path.NotText? ==> r == InternalError && selected == old(selected)
      ensures body.Object? && !body.path.NotText? ==>
              var raw := Strip(if body.path.Text? then body.path.text else "");
              if raw == "" then
                r == Reply(200, Selected(None)) && selected == None
              else if resolveInput(raw) !in env.dirs then
                r == Reply(400, Error("Folder does not exist")) && selected == old(selected)
              else if !HasGlbEntry(env.listing(resolveInput(raw))) then
                r == Reply(400, Error("No .glb files in folder")) && selected == old(selected)
              else
                r == Reply(200, Selected(Some(resolveInput(raw)))) && selected == Some(resolveInput(raw))
    {
      if body.Truthy? || body.path.NotText? {
        return InternalError;
      }
      var raw := Strip(if body.path.Text? then body.path.text else "");
      if raw == "" {
        selected := None;
        return Reply(200, Selected(None));
      }
      var candidate := resolveInput(raw);
      if candidate !in env.dirs {
        return Reply(400, Error("Folder does not exist"));
      }
      if !HasGlbEntry(env.listing(candidate)) {
        return Reply(400, Error("No .glb files in folder"));
      }
      selected := Some(candidate);
      r := Reply(200, Selected(selected));
    }
  }

  /** After a folder is selected, while it exists it is the one every route uses and is reported as custom. */
  lemma SelectedFolderIsUsed(dir: Path, env: Env)
    requires dir in env.dirs
    ensures GlbDir(Some(dir), env) == Some(dir)
    ensures PreviewInfo(Some(dir), env).body.source == "custom"
  {
  }
}
