/**
 * The golden-output comparison of the test suite: two directory trees are compared file
 * by file under the golden tree's relative paths; JSON files are compared after their
 * date and design-file entries are stripped, meshes by their emptiness and a metric
 * comparison, and every other file by its SHA-256 digest.
 */
module GoldenCompare {
  import opened Wrappers
  import opened Numbers
  import opened Text
  import opened Sorting
  import Paths

  // ---------------------------------------------------------------------------------
  // JSON values and date stripping
  // ---------------------------------------------------------------------------------

  /** A decoded JSON value; objects are Python dicts, compared regardless of order. */
  datatype Json =
    | JNull
    | JBool(b: bool)
    | JNum(n: real)
    | JStr(s: string)
    | JList(items: seq<Json>)
    | JDict(entries: map<string, Json>)

  /** Keys whose entries differ between runs: "date" and "design file", in any case. */
  predicate VolatileKey(key: string)
  {
    Lower(key) == "date" || Lower(key) == "design file"
  }

  /** No object, at any depth, holds a volatile key. */
  predicate NoVolatile(v: Json)
  {
    match v
    case JList(items) => forall k :: 0 <= k < |items| ==> NoVolatile(items[k])
    case JDict(m) => forall key :: key in m ==> !VolatileKey(key) && NoVolatile(m[key])
    case _ => true
  }

  /**
   * `_strip_json_dates`: volatile keys are dropped from every object at every depth,
   * lists are mapped element by element and scalars are left alone.
   */
  function StripDates(v: Json): (r: Json)
    ensures NoVolatile(r)
    ensures v.JList? ==> r.JList? && |r.items| == |v.items|
    ensures v.JDict? ==> r.JDict? && r.entries.Keys == set key | key in v.entries && !VolatileKey(key)
    ensures !v.JList? && !v.JDict? ==> r == v
  {
    match v
    case JList(items) => JList(seq(|items|, k requires 0 <= k < |items| => StripDates(items[k])))
    case JDict(m) => JDict(map key | key in m && !VolatileKey(key) :: StripDates(m[key]))
    case _ => v
  }

  /** A value without volatile keys is left exactly as it is. */
  lemma {:induction false} StripKeeps(v: Json)
    requires NoVolatile(v)
    ensures StripDates(v) == v
  {
    match v
    case JList(items) =>
      forall k | 0 <= k < |items| ensures StripDates(items[k]) == items[k] {
        StripKeeps(items[k]);
      }
      assert StripDates(v).items == items;
    case JDict(m) =>
      forall key | key in m ensures StripDates(m[key]) == m[key] {
        StripKeeps(m[key]);
      }
      assert StripDates(v).entries == m;
    case _ =>
  }

  /** Stripping twice is stripping once. */
  lemma StripIdempotent(v: Json)
    ensures StripDates(StripDates(v)) == StripDates(v)
  {
    StripKeeps(StripDates(v));
  }

  /** Stripping changes a value exactly when it holds a volatile key somewhere. */
  lemma StripChanges(v: Json)
    ensures StripDates(v) == v <==> NoVolatile(v)
  {
    if NoVolatile(v) {
      StripKeeps(v);
    }
  }

  /** Two values that differ only in volatile entries compare equal once stripped. */
  lemma StripIgnoresDates(m: map<string, Json>, key: string, a: Json, b: Json)
    requires VolatileKey(key)
    ensures StripDates(JDict(m[key := a])) == StripDates(JDict(m[key := b]))
  {
    var l := StripDates(JDict(m[key := a])).entries;
    var r := StripDates(JDict(m[key := b])).entries;
    assert l.Keys == r.Keys;
    forall k | k in l ensures l[k] == r[k] {
      assert k != key;
    }
  }

  // ---------------------------------------------------------------------------------
  // Python equality of decoded values
  // ---------------------------------------------------------------------------------

  /** The numeric value Python gives a number or a boolean (`True == 1`, `False == 0.0`). */
  function NumberOf(v: Json): (r: Option<real>)
    ensures r.Some? <==> v.JBool? || v.JNum?
  {
    match v
    case JBool(b) => Some(if b then 1.0 else 0.0)
    case JNum(n) => Some(n)
    case _ => None
  }

  /**
   * Python's `==` on decoded JSON: numbers and booleans compare by numeric value, strings
   * and `None` by identity of value, lists element by element, dicts by their key sets and
   * the values under each key; values of different kinds differ.
   */
  predicate PyEq(a: Json, b: Json)
    decreases a
  {
    if NumberOf(a).Some? || NumberOf(b).Some? then NumberOf(a) == NumberOf(b)
    else match a
      case JNull => b.JNull?
      case JStr(x) => b.JStr? && b.s == x
      case JList(xs) => b.JList? && |xs| == |b.items| && forall k :: 0 <= k < |xs| ==> PyEq(xs[k], b.items[k])
      case JDict(m) => b.JDict? && m.Keys == b.entries.Keys && forall key :: key in m ==> PyEq(m[key], b.entries[key])
  }

  /** No boolean at any depth. */
  predicate NoBool(v: Json)
  {
    match v
    case JBool(_) => false
    case JList(items) => forall k :: 0 <= k < |items| ==> NoBool(items[k])
    case JDict(m) => forall key :: key in m ==> NoBool(m[key])
    case _ => true
  }

  /** Every value equals itself. */
  lemma {:induction false} PyEqRefl(v: Json)
    ensures PyEq(v, v)
  {
    match v
    case JList(items) =>
      forall k | 0 <= k < |items| ensures PyEq(items[k], items[k]) {
        PyEqRefl(items[k]);
      }
    case JDict(m) =>
      forall key | key in m ensures PyEq(m[key], m[key]) {
        PyEqRefl(m[key]);
      }
    case _ =>
  }

  /** Python equality is symmetric. */
  lemma {:induction false} PyEqSym(a: Json, b: Json)
    requires PyEq(a, b)
    ensures PyEq(b, a)
  {
    if NumberOf(a).None? && NumberOf(b).None? {
      match a
      case JList(xs) =>
        forall k | 0 <= k < |xs| ensures PyEq(b.items[k], xs[k]) {
          PyEqSym(xs[k], b.items[k]);
        }
      case JDict(m) =>
        forall key | key in b.entries ensures PyEq(b.entries[key], m[key]) {
          PyEqSym(m[key], b.entries[key]);
        }
      case _ =>
    }
  }

  /** Without booleans, Python equality is equality of the decoded values. */
  lemma PyEqWithoutBools(a: Json, b: Json)
    requires NoBool(a) && NoBool(b)
    ensures PyEq(a, b) <==> a == b
  {
    if PyEq(a, b) {
      PyEqIsEquality(a, b);
    } else {
      PyEqRefl(a);
    }
  }

  /** Without booleans, Python-equal values are equal. */
  lemma {:induction false} PyEqIsEquality(a: Json, b: Json)
    requires NoBool(a) && NoBool(b) && PyEq(a, b)
    ensures a == b
  {
    if NumberOf(a).None? && NumberOf(b).None? {
      match a
      case JList(xs) =>
        forall k | 0 <= k < |xs| ensures xs[k] == b.items[k] {
          PyEqIsEquality(xs[k], b.items[k]);
        }
        assert xs == b.items;
      case JDict(m) =>
        forall key | key in m ensures m[key] == b.entries[key] {
          PyEqIsEquality(m[key], b.entries[key]);
        }
        assert m == b.entries;
      case _ =>
    }
  }

  /** A boolean equals the number it stands for: `{"a": True} == {"a": 1}`. */
  lemma TrueEqualsOne()
    ensures PyEq(JDict(map["a" := JBool(true)]), JDict(map["a" := JNum(1.0)]))
    ensures JDict(map["a" := JBool(true)]) != JDict(map["a" := JNum(1.0)])
  {
    var m := map["a" := JBool(true)];
    assert m["a"] != JNum(1.0);
  }

  // ---------------------------------------------------------------------------------
  // Listing a tree
  // ---------------------------------------------------------------------------------

  /**
   * What the comparison reads of one file: the decoded JSON, whether the loaded mesh is
   * empty, its metrics, and the hex SHA-256 digest of its bytes.
   */
  datatype FileView = FileView(json: Json, meshEmpty: bool, metrics: seq<real>, sha256: string)

  /**
   * A directory tree: whether it exists, its own path, the relative paths of its regular
   * files in the order `rglob` yields them, and the view of each file.
   */
  datatype Tree = Tree(present: bool, base: Paths.Path, listing: seq<Paths.Path>, read: Paths.Path -> FileView)

  /** The cache folder name that excludes a file anywhere in its full path. */
  const CacheDir := "__pycache__"

  predicate PathLe(a: Paths.Path, b: Paths.Path) { PartsLe(a, b) }

  lemma PathOrder()
    ensures TotalPreorder(PathLe)
  {
    forall a: Paths.Path, b: Paths.Path ensures PathLe(a, b) || PathLe(b, a) {
      PartsLeTotal(a, b);
    }
    forall a: Paths.Path, b: Paths.Path, c: Paths.Path | PathLe(a, b) && PathLe(b, c)
      ensures PathLe(a, c)
    {
      PartsLeTrans(a, b, c);
    }
  }

  /** A file `rel` below `base` is listed unless a cache folder lies on its full path. */
  predicate Listed(base: Paths.Path, rel: Paths.Path) { CacheDir !in base + rel }

  /** `_iter_files`: the files outside cache folders, sorted by path. */
  function IterFiles(t: Tree): (r: seq<Paths.Path>)
    ensures SortedBy(r, PathLe)
    ensures multiset(r) == multiset(Filter(t.listing, rel => Listed(t.base, rel)))
  {
    PathOrder();
    Sort(Filter(t.listing, rel => Listed(t.base, rel)), PathLe)
  }

  /** A path is listed exactly when the tree has it and no cache folder lies on its path. */
  lemma IterFilesMembers(t: Tree, rel: Paths.Path)
    ensures rel in IterFiles(t) <==> rel in t.listing && CacheDir !in t.base + rel
  {
    var p := rel => Listed(t.base, rel);
    FilterCount(t.listing, p, rel);
    assert rel in IterFiles(t) <==> rel in multiset(IterFiles(t));
    assert rel in t.listing <==> rel in multiset(t.listing);
  }

  /** Membership in a filtered sequence. */
  lemma FilterMembers<T>(s: seq<T>, p: T -> bool, x: T)
    ensures x in Filter(s, p) <==> x in s && p(x)
  {
    FilterCount(s, p, x);
    assert x in Filter(s, p) <==> x in multiset(Filter(s, p));
    assert x in s <==> x in multiset(s);
  }

  /** Filtering out every element leaves nothing. */
  lemma {:induction false} FilterNone<T>(s: seq<T>, p: T -> bool)
    requires forall k :: 0 <= k < |s| ==> !p(s[k])
    ensures Filter(s, p) == []
    decreases |s|
  {
    if |s| > 0 {
      FilterNone(s[..|s| - 1], p);
    }
  }

  // ---------------------------------------------------------------------------------
  // Comparing two trees
  // ---------------------------------------------------------------------------------

  /** The `AssertionError` the comparison raises, by its message's kind. */
  datatype Failure =
    | GeneratedMissing
    | GoldenMissing
    | MissingGolden(paths: seq<Paths.Path>)
    | ExtraGenerated(paths: seq<Paths.Path>)
    | JsonMismatch(path: Paths.Path)
    | EmptyMeshMismatch(path: Paths.Path)
    | MeshMismatch(path: Paths.Path)
    | FileMismatch(path: Paths.Path)

  /**
   * The keyword arguments: the JSON and mesh extensions, whether extra generated files
   * are ignored, and the metric comparison `assert_mesh_metrics_close` performs.
   */
  datatype Options = Options(jsonExts: seq<string>, meshExts: seq<string>, ignoreExtra: bool,
                             close: (seq<real>, seq<real>) -> bool)

  const DefaultJsonExts: seq<string> := [".json"]
  const DefaultMeshExts: seq<string> := [".glb", ".stl", ".obj"]

  /** `{ext.lower() for ext in exts}` holds `suffix`. */
  predicate HasExt(exts: seq<string>, suffix: string)
  {
    exists k :: 0 <= k < |exts| && Lower(exts[k]) == suffix
  }

  /** `path.suffix.lower()` of a relative path. */
  function LowerSuffix(rel: Paths.Path): string
  {
    Lower(Paths.Suffix(Paths.Name(rel)))
  }

  /** The first `n` entries of `s`, as `s[:n]` gives them. */
  function Take<T>(s: seq<T>, n: nat): (r: seq<T>)
    ensures |r| == Min(n, |s|) && r <= s
  {
    s[..Min(n, |s|)]
  }

  /** How one golden file compares with its generated counterpart. */
  function CheckFile(rel: Paths.Path, gen: Tree, gold: Tree, o: Options): (r: Option<Failure>)
    ensures r.Some? ==> (r.value.JsonMismatch? || r.value.EmptyMeshMismatch? || r.value.MeshMismatch? || r.value.FileMismatch?) && r.value.path == rel
  {
    var suffix := LowerSuffix(rel);
    var g := gen.read(rel);
    var d := gold.read(rel);
    if HasExt(o.jsonExts, suffix) then
      if !PyEq(StripDates(g.json), StripDates(d.json)) then Some(JsonMismatch(rel)) else None
    else if HasExt(o.meshExts, suffix) then
      if g.meshEmpty || d.meshEmpty then
        if g.meshEmpty != d.meshEmpty then Some(EmptyMeshMismatch(rel)) else None
      else if !o.close(g.metrics, d.metrics) then Some(MeshMismatch(rel))
      else None
    else if g.sha256 != d.sha256 then Some(FileMismatch(rel))
    else None
  }

  /**
   * A JSON file matches when the stripped values are equal as Python compares them; a mesh when both or neither
   * are empty and, if not empty, the metrics are close; any other file when the digests
   * are equal. JSON takes precedence over mesh when an extension is in both lists.
   */
  lemma FileRules(rel: Paths.Path, gen: Tree, gold: Tree, o: Options)
    ensures HasExt(o.jsonExts, LowerSuffix(rel)) ==>
      (CheckFile(rel, gen, gold, o).None? <==> PyEq(StripDates(gen.read(rel).json), StripDates(gold.read(rel).json)))
    ensures !HasExt(o.jsonExts, LowerSuffix(rel)) && !HasExt(o.meshExts, LowerSuffix(rel)) ==>
      (CheckFile(rel, gen, gold, o).None? <==> gen.read(rel).sha256 == gold.read(rel).sha256)
    ensures !HasExt(o.jsonExts, LowerSuffix(rel)) && HasExt(o.meshExts, LowerSuffix(rel)) ==>
      (CheckFile(rel, gen, gold, o).None? <==>
        (gen.read(rel).meshEmpty == gold.read(rel).meshEmpty &&
         (gen.read(rel).meshEmpty || o.close(gen.read(rel).metrics, gold.read(rel).metrics))))
  {
  }

  /** The failure of the first file of `rels` that does not match, if any. */
  function FirstMismatch(rels: seq<Paths.Path>, gen: Tree, gold: Tree, o: Options): Option<Failure>
  {
    if |rels| == 0 then None
    else if CheckFile(rels[0], gen, gold, o).Some? then CheckFile(rels[0], gen, gold, o)
    else FirstMismatch(rels[1..], gen, gold, o)
  }

  /** The golden files that were not generated, in order. */
  function MissingFiles(gen: Tree, gold: Tree): seq<Paths.Path>
  {
    var generated := IterFiles(gen);
    Filter(IterFiles(gold), rel => rel !in generated)
  }

  /** The generated files without a golden counterpart, in order. */
  function ExtraFiles(gen: Tree, gold: Tree): seq<Paths.Path>
  {
    var golden := IterFiles(gold);
    Filter(IterFiles(gen), rel => rel !in golden)
  }

  /** `compare_directories`: the first failure it raises, or `None` when it returns. */
  function Compare(gen: Tree, gold: Tree, o: Options): Option<Failure>
  {
    if !gen.present then Some(GeneratedMissing)
    else if !gold.present then Some(GoldenMissing)
    else if |MissingFiles(gen, gold)| > 0 then Some(MissingGolden(Take(MissingFiles(gen, gold), 10)))
    else if !o.ignoreExtra && |ExtraFiles(gen, gold)| > 0 then Some(ExtraGenerated(Take(ExtraFiles(gen, gold), 10)))
    else FirstMismatch(IterFiles(gold), gen, gold, o)
  }

  /** No failure among `rels` exactly when every file of `rels` matches. */
  lemma {:induction false} FirstMismatchNone(rels: seq<Paths.Path>, gen: Tree, gold: Tree, o: Options)
    ensures FirstMismatch(rels, gen, gold, o).None? <==>
      forall k :: 0 <= k < |rels| ==> CheckFile(rels[k], gen, gold, o).None?
  {
    if |rels| > 0 {
      FirstMismatchNone(rels[1..], gen, gold, o);
      assert forall k :: 1 <= k < |rels| ==> rels[k] == rels[1..][k - 1];
    }
  }

  /** The missing golden files are the set difference, listed sorted. */
  lemma MissingFilesSorted(gen: Tree, gold: Tree, rel: Paths.Path)
    ensures SortedBy(MissingFiles(gen, gold), PathLe)
    ensures rel in MissingFiles(gen, gold) <==> rel in IterFiles(gold) && rel !in IterFiles(gen)
  {
    var generated := IterFiles(gen);
    FilterSorted(IterFiles(gold), rel => rel !in generated, PathLe);
    FilterMembers(IterFiles(gold), rel => rel !in generated, rel);
  }

  /**
   * The comparison passes exactly when both trees exist, every golden file was
   * generated, no extra file was generated unless extras are ignored, and every golden
   * file matches its generated counterpart.
   */
  lemma CompareOk(gen: Tree, gold: Tree, o: Options)
    ensures Compare(gen, gold, o).None? <==>
      gen.present && gold.present
      && (forall rel :: rel in IterFiles(gold) ==> rel in IterFiles(gen))
      && (o.ignoreExtra || forall rel :: rel in IterFiles(gen) ==> rel in IterFiles(gold))
      && (forall rel :: rel in IterFiles(gold) ==> CheckFile(rel, gen, gold, o).None?)
  {
    NoMissingFiles(gen, gold);
    NoExtraFiles(gen, gold);
    FirstMismatchNone(IterFiles(gold), gen, gold, o);
    assert (forall k :: 0 <= k < |IterFiles(gold)| ==> CheckFile(IterFiles(gold)[k], gen, gold, o).None?)
       <==> (forall rel :: rel in IterFiles(gold) ==> CheckFile(rel, gen, gold, o).None?);
  }

  /** No golden file is missing exactly when every golden file was generated. */
  lemma NoMissingFiles(gen: Tree, gold: Tree)
    ensures |MissingFiles(gen, gold)| == 0 <==> forall rel :: rel in IterFiles(gold) ==> rel in IterFiles(gen)
  {
    var generated := IterFiles(gen);
    var golden := IterFiles(gold);
    forall rel ensures rel in MissingFiles(gen, gold) <==> rel in golden && rel !in generated {
      FilterMembers(golden, rel => rel !in generated, rel);
    }
    if |MissingFiles(gen, gold)| > 0 {
      assert MissingFiles(gen, gold)[0] in MissingFiles(gen, gold);
    }
  }

  /** No generated file is extra exactly when every generated file has a golden counterpart. */
  lemma NoExtraFiles(gen: Tree, gold: Tree)
    ensures |ExtraFiles(gen, gold)| == 0 <==> forall rel :: rel in IterFiles(gen) ==> rel in IterFiles(gold)
  {
    var generated := IterFiles(gen);
    var golden := IterFiles(gold);
    forall rel ensures rel in ExtraFiles(gen, gold) <==> rel in generated && rel !in golden {
      FilterMembers(generated, rel => rel !in golden, rel);
    }
    if |ExtraFiles(gen, gold)| > 0 {
      assert ExtraFiles(gen, gold)[0] in ExtraFiles(gen, gold);
    }
  }

  /** An extra generated file fails the comparison only when extras are not ignored. */
  lemma ExtraFileFails(gen: Tree, gold: Tree, o: Options, rel: Paths.Path)
    requires gen.present && gold.present
    requires forall g :: g in IterFiles(gold) ==> g in IterFiles(gen)
    requires rel in IterFiles(gen) && rel !in IterFiles(gold)
    ensures !o.ignoreExtra ==> Compare(gen, gold, o).Some? && Compare(gen, gold, o).value.ExtraGenerated?
  {
    var generated := IterFiles(gen);
    var golden := IterFiles(gold);
    FilterNone(golden, rel => rel !in generated);
    FilterMembers(generated, rel => rel !in golden, rel);
  }

  /** A golden file that was not generated fails the comparison, whatever the options. */
  lemma MissingFileFails(gen: Tree, gold: Tree, o: Options, rel: Paths.Path)
    requires gen.present && gold.present
    requires rel in IterFiles(gold) && rel !in IterFiles(gen)
    ensures Compare(gen, gold, o).Some? && Compare(gen, gold, o).value.MissingGolden?
    ensures rel in MissingFiles(gen, gold)
  {
    MissingFilesSorted(gen, gold, rel);
  }

  /** The per-file loop: the first golden file that does not match stops it. */
  method CheckFiles(golden: seq<Paths.Path>, gen: Tree, gold: Tree, o: Options) returns (r: Option<Failure>)
    ensures r == FirstMismatch(golden, gen, gold, o)
  {
    for i := 0 to |golden|
      invariant FirstMismatch(golden[i..], gen, gold, o) == FirstMismatch(golden, gen, gold, o)
    {
      assert golden[i..][1..] == golden[i + 1..];
      var failure := CheckFile(golden[i], gen, gold, o);
      if failure.Some? {
        return failure;
      }
    }
    return None;
  }

  /** `compare_directories` as it runs: the checks in order, then the per-file loop. */
  method CompareDirectories(gen: Tree, gold: Tree, o: Options) returns (r: Option<Failure>)
    ensures r == Compare(gen, gold, o)
  {
    if !gen.present {
      return Some(GeneratedMissing);
    }
    if !gold.present {
      return Some(GoldenMissing);
    }
    var missing := MissingFiles(gen, gold);
    if |missing| > 0 {
      return Some(MissingGolden(Take(missing, 10)));
    }
    if !o.ignoreExtra {
      var extra := ExtraFiles(gen, gold);
      if |extra| > 0 {
        return Some(ExtraGenerated(Take(extra, 10)));
      }
    }
    r := CheckFiles(IterFiles(gold), gen, gold, o);
  }
}
