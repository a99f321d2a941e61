/**
 * The request handler of the openmfd preview server: the query string is dropped, a fixed
 * set of paths is routed, `/glb_list.json` lists the preview folder and everything else
 * is refused. Files are named by the raw, case-sensitive stem.
 */
module OpenmfdServer {
  import opened Wrappers
  import opened Text
  import opened Paths
  import opened GlbFiles
  import Sorting

  /**
   * The context of a request: the package directory (relative to the working directory),
   * the directories that exist, each folder's entries in the order the folder yields them,
   * and `pathStr(base, rel)`, the text of the path `base / rel`.
   */
  datatype Env = Env(
    envDir: Path,
    dirs: set<Path>,
    listing: Path -> seq<DirEntry>,
    pathStr: (Path, string) -> string)

  datatype GlbEntry = GlbEntry(name: string, kind: Kind, file: string)

  /** What was written back: an error, the listing, or the path handed to the file-serving base handler. */
  datatype Reply = Error(status: int, message: string) | Files(list: seq<GlbEntry>) | Delegated(path: string)

  function VisualizerDir(env: Env): Path { Child(env.envDir, "visualizer") }

  // ---------------------------------------------------------------------------------
  // Routing
  // ---------------------------------------------------------------------------------

  /** `path.split("?", 1)[0]`: everything before the first '?'. */
  function BeforeQuery(path: string): (r: string)
    ensures '?' !in r && StartsWith(path, r)
    ensures |r| < |path| ==> path[|r|] == '?'
    decreases |path|
  {
    if |path| == 0 || path[0] == '?' then ""
    else
      var rest := BeforeQuery(path[1..]);
      assert path[..1 + |rest|] == [path[0]] + path[1..][..|rest|];
      [path[0]] + rest
  }

  /** Appending a query string never changes where a request is routed. */
  lemma {:induction false} QueryIgnored(p: string, q: string)
    requires '?' !in p
    ensures BeforeQuery(p + "?" + q) == p
    decreases |p|
  {
    if |p| == 0 {
      assert p + "?" + q == "?" + q;
    } else {
      assert (p + "?" + q)[1..] == p[1..] + "?" + q;
      assert p[0] in p;
      QueryIgnored(p[1..], q);
      assert p == [p[0]] + p[1..];
    }
  }

  /** `get_glb_dir`: "preview" in the working directory, else the demo device, else none. */
  function GlbDir(env: Env): (r: Option<Path>)
    ensures r.Some? ==> r.value in env.dirs
    ensures ["preview"] in env.dirs ==> r == Some(["preview"])
    ensures r.None? <==> ["preview"] !in env.dirs && Child(VisualizerDir(env), "demo_device") !in env.dirs
  {
    if ["preview"] in env.dirs then Some(["preview"])
    else if Child(VisualizerDir(env), "demo_device") in env.dirs then Some(Child(VisualizerDir(env), "demo_device"))
    else None
  }

  /** The request paths `do_GET` answers; every other path is refused with 404. */
  predicate Routed(p: string)
  {
    p == "/" || p == "/favicon.ico" || p == "/main.js" || StartsWith(p, "/visualizer/three") ||
    p == "/glb_list.json" || EndsWith(p, ".glb")
  }

  /**
   * Where `do_GET` sends a query-free path: the rewritten request path for the base
   * handler, or None for the listing and for a refused path.
   */
  function Rewrite(p: string, env: Env): (r: Option<string>)
    ensures r.None? <==> p == "/glb_list.json" || !Routed(p)
  {
    if p == "/" then Some(env.pathStr(VisualizerDir(env), "index.html"))
    else if p == "/favicon.ico" then Some(env.pathStr(env.envDir, "favicon.ico"))
    else if p == "/main.js" then Some(env.pathStr(VisualizerDir(env), "main.js"))
    else if StartsWith(p, "/visualizer/three") then Some(env.pathStr(env.envDir, LStripChar(p, '/')))
    else if p == "/glb_list.json" then None
    else if EndsWith(p, ".glb") then Some(LStripChar(p, '/'))
    else None
  }

  /** A `.glb` request outside the fixed routes is served from the working directory without its leading slashes. */
  lemma GlbRequestServedFromCwd(p: string, env: Env)
    requires EndsWith(p, ".glb") && p != "/" && p != "/favicon.ico" && p != "/main.js" &&
             !StartsWith(p, "/visualizer/three") && p != "/glb_list.json"
    ensures Rewrite(p, env) == Some(LStripChar(p, '/'))
    ensures |LStripChar(p, '/')| > 0 && LStripChar(p, '/')[0] != '/'
  {
    assert p[|p| - 1] == ".glb"[3];
  }

  // ---------------------------------------------------------------------------------
  // Listing
  // ---------------------------------------------------------------------------------

  /** The type a raw stem selects after its "regional_" prefix, and that sub-prefix's length. */
  function RegionalKind(name: string): (r: (Kind, nat))
    ensures r.1 <= |name|
  {
    if StartsWith(name, MembranePrefix) then (RegionalMembrane, 18)
    else if StartsWith(name, PositionPrefix) then (RegionalPosition, 18)
    else if StartsWith(name, ExposurePrefix) then (RegionalExposure, 18)
    else if StartsWith(name, SecondaryDosePrefix) then (RegionalSecondaryDose, 24)
    else (RegionalOther, 0)
  }

  /** (display name, type) of a stem, decided on the stem exactly as written. */
  function Classify(stem: string): (r: (string, Kind))
    ensures r.1 == Unknown ==> r.0 == stem
    ensures r.1 !in {RegionalDefaultExposure, RegionalDefaultPosition, RegionalBurnIn}
  {
    if StartsWith(stem, "bulk_") then (Capitalize(stem[5..]), Bulk)
    else if StartsWith(stem, "void_") then (Capitalize(stem[5..]), Void)
    else if StartsWith(stem, "regional_") then
      var (kind, n) := RegionalKind(stem[9..]);
      (Capitalize(stem[9..][n..]), kind)
    else if stem == "ports" then ("Unconnected Ports", Ports)
    else if stem == "device" then ("Device", Device)
    else if stem == "bounding_box" then ("Bounding Box", BoundingBox)
    else (stem, Unknown)
  }

  /** Each prefix selects its type and the capitalised rest, whatever follows it. */
  lemma PrefixDeterminesKind(rest: string)
    ensures Classify("bulk_" + rest) == (Capitalize(rest), Bulk)
    ensures Classify("void_" + rest) == (Capitalize(rest), Void)
    ensures Classify("regional_" + MembranePrefix + rest) == (Capitalize(rest), RegionalMembrane)
    ensures Classify("regional_" + SecondaryDosePrefix + rest) == (Capitalize(rest), RegionalSecondaryDose)
  {
    StartsWithConcat("bulk_", rest);
    StartsWithConcat("void_", rest);
    assert ("bulk_" + rest)[5..] == rest && ("void_" + rest)[5..] == rest;
    PrefixesDiffer("void_" + rest, "void_", "bulk_", 0);
    var m := "regional_" + MembranePrefix + rest;
    assert m == "regional_" + (MembranePrefix + rest);
    StartsWithConcat("regional_", MembranePrefix + rest);
    StartsWithConcat(MembranePrefix, rest);
    PrefixesDiffer(m, "regional_", "bulk_", 0);
    PrefixesDiffer(m, "regional_", "void_", 0);
    assert m[9..] == MembranePrefix + rest && (MembranePrefix + rest)[18..] == rest;
    var d := "regional_" + SecondaryDosePrefix + rest;
    assert d == "regional_" + (SecondaryDosePrefix + rest);
    StartsWithConcat("regional_", SecondaryDosePrefix + rest);
    StartsWithConcat(SecondaryDosePrefix, rest);
    PrefixesDiffer(d, "regional_", "bulk_", 0);
    PrefixesDiffer(d, "regional_", "void_", 0);
    var x := SecondaryDosePrefix + rest;
    PrefixesDiffer(x, SecondaryDosePrefix, MembranePrefix, 0);
    PrefixesDiffer(x, SecondaryDosePrefix, PositionPrefix, 0);
    PrefixesDiffer(x, SecondaryDosePrefix, ExposurePrefix, 0);
    assert d[9..] == x && x[24..] == rest;
  }

  /** The prefixes are case-sensitive: an upper-case "BULK_" file is of unknown type. */
  lemma UpperCasePrefixUnknown(rest: string)
    ensures Classify("BULK_" + rest) == ("BULK_" + rest, Unknown)
  {
    var s := "BULK_" + rest;
    FirstCharDiffers(s, "bulk_");
    FirstCharDiffers(s, "void_");
    FirstCharDiffers(s, "regional_");
    assert s[0] == 'B';
  }

  /** A stem is of unknown type exactly when no prefix and no fixed name applies. */
  lemma UnknownExactly(stem: string)
    ensures Classify(stem).1 == Unknown <==>
              !StartsWith(stem, "bulk_") && !StartsWith(stem, "void_") && !StartsWith(stem, "regional_") &&
              stem != "ports" && stem != "device" && stem != "bounding_box"
  {
  }

  /** The record of one listed file; `file` is the file's path under the preview folder. */
  function Describe(dir: Path, e: DirEntry): (g: GlbEntry)
    ensures (g.name, g.kind) == Classify(Stem(e.name))
    ensures g.file == AsPosix(Child(dir, e.name))
  {
    var (name, kind) := Classify(Stem(e.name));
    GlbEntry(name, kind, AsPosix(Child(dir, e.name)))
  }

  /** The records of the `.glb` files among `entries`, in the order the folder yields them. */
  function Records(dir: Path, entries: seq<DirEntry>): (r: seq<GlbEntry>)
    decreases |entries|
  {
    if |entries| == 0 then []
    else
      var last := entries[|entries| - 1];
      Records(dir, entries[..|entries| - 1]) + (if IsGlb(last) then [Describe(dir, last)] else [])
  }

  /** There is one record per `.glb` entry, describing it, in folder order. */
  lemma {:induction false} RecordsDescribeGlbFiles(dir: Path, entries: seq<DirEntry>)
    ensures var f := Sorting.Filter(entries, IsGlb);
            |Records(dir, entries)| == |f| &&
            forall k :: 0 <= k < |f| ==> Records(dir, entries)[k] == Describe(dir, f[k])
    decreases |entries|
  {
    if |entries| > 0 {
      RecordsDescribeGlbFiles(dir, entries[..|entries| - 1]);
    }
  }

  /** `list_glb_files`: the `.glb` files of the folder, in the order it yields them. */
  method ListGlbFiles(dir: Path, entries: seq<DirEntry>) returns (list: seq<GlbEntry>)
    ensures list == Records(dir, entries)
  {
    list := [];
    var i := 0;
    while i < |entries|
      invariant 0 <= i <= |entries|
      invariant list == Records(dir, entries[..i])
    {
      assert entries[..i + 1][..i] == entries[..i];
      var path := entries[i];
      if IsGlb(path) {
        list := list + [Describe(dir, path)];
      }
      i := i + 1;
    }
    assert entries[..|entries|] == entries;
  }

  // ---------------------------------------------------------------------------------
  // The handler
  // ---------------------------------------------------------------------------------

  /** `OpenMFDHandler`: the request path, which `do_GET` and `do_HEAD` rewrite before delegating. */
  class Handler {
    var path: string

    constructor(requestPath: string)
      ensures path == requestPath
    {
      path := requestPath;
    }

    /** `do_GET` */
    method DoGet(env: Env) returns (reply: Reply)
      modifies this
      ensures var p := BeforeQuery(old(path));
              match Rewrite(p, env)
              case Some(target) => path == target && reply == Delegated(target)
              case None =>
                path == p &&
                if p != "/glb_list.json" then reply == Error(404, "File not found")
                else if GlbDir(env).None? then reply == Error(404, "No valid .glb directory found.")
                else reply == Files(Records(GlbDir(env).value, env.listing(GlbDir(env).value)))
    {
      if '?' in path {
        path := BeforeQuery(path);
      } else {
        QueryFree(path);
      }
      var p := path;
      if p == "/" {
        path := env.pathStr(VisualizerDir(env), "index.html");
        reply := Delegated(path);
      } else if p == "/favicon.ico" {
        path := env.pathStr(env.envDir, "favicon.ico");
        reply := Delegated(path);
      } else if p == "/main.js" {
        path := env.pathStr(VisualizerDir(env), "main.js");
        reply := Delegated(path);
      } else if StartsWith(p, "/visualizer/three") {
        path := env.pathStr(env.envDir, LStripChar(p, '/'));
        reply := Delegated(path);
      } else if p == "/glb_list.json" {
        var dir := GlbDir(env);
        if dir.None? {
          reply := Error(404, "No valid .glb directory found.");
        } else {
          var list := ListGlbFiles(dir.value, env.listing(dir.value));
          reply := Files(list);
        }
      } else if EndsWith(p, ".glb") {
        path := LStripChar(p, '/');
        reply := Delegated(path);
      } else {
        reply := Error(404, "File not found");
      }
    }

    /**
     * `do_HEAD`: a `.glb` path loses its leading slashes; any other path is answered with
     * 404 and is then still handed to the base handler, so it receives two responses.
     */
    method DoHead() returns (replies: seq<Reply>)
      modifies this
      ensures EndsWith(old(path), ".glb") ==> path == LStripChar(old(path), '/') && replies == [Delegated(path)]
      ensures !EndsWith(old(path), ".glb") ==>
                path == old(path) && replies == [Error(404, "File not found"), Delegated(path)]
    {
      if EndsWith(path, ".glb") {
        path := LStripChar(path, '/');
        replies := [];
      } else {
        replies := [Error(404, "File not found")];
      }
      replies := replies + [Delegated(path)];
    }
  }

  /** A path without '?' is left as it is. */
  lemma QueryFree(p: string)
    requires '?' !in p
    ensures BeforeQuery(p) == p
  {
  }
}
