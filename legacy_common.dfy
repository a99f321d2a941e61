/**
 * What the two legacy `pymfd` slice post-processors share: the layer-range parser of
 * their command-line entry points (`expand_string_range`), the layer number read from a
 * file name, the gate on `layers_to_check`, the file writes they perform, and the loop
 * over the images that stops when the progress callback answers falsy.
 */
module LegacyCommon {
  import opened Wrappers
  import opened Text
  import opened PixelSets
  import Paths

  // ---------------------------------------------------------------------------------
  // expand_string_range
  // ---------------------------------------------------------------------------------

  /** `list(range(a, b + 1))`: a, a + 1, ..., b, and nothing when a > b. */
  function Span(a: int, b: int): (r: seq<int>)
    ensures |r| == if b >= a then b - a + 1 else 0
    ensures forall k :: 0 <= k < |r| ==> r[k] == a + k
  {
    seq(if b >= a then b - a + 1 else 0, k => a + k)
  }

  /** The span holds exactly the integers from `a` to `b`. */
  lemma SpanMembers(a: int, b: int, v: int)
    ensures v in Span(a, b) <==> a <= v <= b
  {
    if a <= v <= b {
      assert Span(a, b)[v - a] == v;
    }
  }

  /** One comma-separated part: `a-b` (exactly one '-') or a single integer. */
  function ExpandPart(part: string): (r: Option<seq<int>>)
    ensures '-' !in part ==> (r.Some? <==> ParseInt(part).Some?)
    ensures '-' !in part && r.Some? ==> r.value == [ParseInt(part).value]
  {
    if '-' in part then
      var halves := Split(part, '-');
      if |halves| != 2 then None
      else
        var a := ParseInt(halves[0]);
        var b := ParseInt(halves[1]);
        if a.None? || b.None? then None else Some(Span(a.value, b.value))
    else
      var a := ParseInt(part);
      if a.None? then None else Some([a.value])
  }

  /** The parts expanded in order and concatenated; any bad part raises `ValueError`. */
  function ExpandParts(parts: seq<string>): (r: Option<seq<int>>)
    ensures |parts| == 0 ==> r == Some([])
    decreases |parts|
  {
    if |parts| == 0 then Some([])
    else
      var front := ExpandParts(parts[..|parts| - 1]);
      var last := ExpandPart(parts[|parts| - 1]);
      if front.None? || last.None? then None else Some(front.value + last.value)
  }

  /** `expand_string_range(x)`; `None` stands for the `ValueError` it raises. */
  function ExpandStringRange(x: string): (r: Option<seq<int>>)
  {
    ExpandParts(Split(x, ','))
  }

  /** A bad part makes the whole text fail, whatever follows it. */
  lemma {:induction false} ExpandPartsStops(parts: seq<string>, k: nat)
    requires k <= |parts| && ExpandParts(parts[..k]).None?
    ensures ExpandParts(parts).None?
    decreases |parts| - k
  {
    if k < |parts| {
      assert parts[..k + 1][..k] == parts[..k];
      ExpandPartsStops(parts, k + 1);
    } else {
      assert parts[..k] == parts;
    }
  }

  /** The loop of `expand_string_range`, extending the result part by part. */
  method ExpandStringRangeLoop(x: string) returns (r: Option<seq<int>>)
    ensures r == ExpandStringRange(x)
  {
    var parts := Split(x, ',');
    var result: seq<int> := [];
    for k := 0 to |parts|
      invariant ExpandParts(parts[..k]) == Some(result)
    {
      var next := ExpandStep(parts, k, result);
      if next.None? {
        ExpandPartsStops(parts, k + 1);
        return None;
      }
      result := next.value;
    }
    assert parts[..|parts|] == parts;
    return Some(result);
  }

  /** One loop body: part `k` expanded and appended to what the earlier parts gave. */
  method ExpandStep(parts: seq<string>, k: nat, result: seq<int>) returns (r: Option<seq<int>>)
    requires k < |parts| && ExpandParts(parts[..k]) == Some(result)
    ensures r == ExpandParts(parts[..k + 1])
  {
    assert parts[..k + 1][..k] == parts[..k];
    assert parts[..k + 1][k] == parts[k];
    var values := ExpandPart(parts[k]);
    if values.None? {
      return None;
    }
    return Some(result + values.value);
  }

  /** A layer range as it is written on the command line: `n` or `a-b`. */
  datatype RangeItem = Single(n: nat) | Between(lo: nat, hi: nat)

  function ItemText(item: RangeItem): (s: string)
  {
    match item
    case Single(n) => Decimal(n)
    case Between(lo, hi) => Decimal(lo) + "-" + Decimal(hi)
  }

  function ItemValues(item: RangeItem): seq<int>
  {
    match item
    case Single(n) => [n]
    case Between(lo, hi) => Span(lo, hi)
  }

  /** The items written out, joined with commas. */
  function RangeText(items: seq<RangeItem>): (s: string)
  {
    Join(seq(|items|, k requires 0 <= k < |items| => ItemText(items[k])), ",")
  }

  /** The integers the items stand for, in order. */
  function RangeValues(items: seq<RangeItem>): (r: seq<int>)
    decreases |items|
  {
    if |items| == 0 then [] else RangeValues(items[..|items| - 1]) + ItemValues(items[|items| - 1])
  }

  lemma DecimalHasNoSeparator(n: nat, c: char)
    requires !IsDigit(c)
    ensures c !in Decimal(n)
  {
  }

  lemma ItemExpands(item: RangeItem)
    ensures ',' !in ItemText(item)
    ensures ExpandPart(ItemText(item)) == Some(ItemValues(item))
  {
    match item
    case Single(n) =>
      DecimalHasNoSeparator(n, ',');
      DecimalHasNoSeparator(n, '-');
    case Between(lo, hi) =>
      var a := Decimal(lo);
      var b := Decimal(hi);
      DecimalHasNoSeparator(lo, ',');
      DecimalHasNoSeparator(hi, ',');
      DecimalHasNoSeparator(lo, '-');
      DecimalHasNoSeparator(hi, '-');
      assert ',' !in a + "-" + b;
      assert (a + "-" + b)[|a|] == '-';
      SplitAround(a, b, '-');
      SplitNoSeparator(b, '-');
  }

  /**
   * Any list of single layers and layer ranges, written out with commas, expands to the
   * layers it names, in order: `expand_string_range` inverts writing the ranges down.
   */
  lemma {:induction false} ExpandRangeText(items: seq<RangeItem>)
    requires |items| > 0
    ensures ExpandStringRange(RangeText(items)) == Some(RangeValues(items))
  {
    var texts := seq(|items|, k requires 0 <= k < |items| => ItemText(items[k]));
    forall k | 0 <= k < |items| {
      ItemExpands(items[k]);
    }
    SplitJoin(texts, ',');
    ExpandTexts(items, texts);
  }

  lemma {:induction false} ExpandTexts(items: seq<RangeItem>, texts: seq<string>)
    requires |texts| == |items|
    requires forall k :: 0 <= k < |items| ==> texts[k] == ItemText(items[k])
    requires forall k :: 0 <= k < |items| ==> ExpandPart(ItemText(items[k])) == Some(ItemValues(items[k]))
    ensures ExpandParts(texts) == Some(RangeValues(items))
    decreases |items|
  {
    if |items| > 0 {
      ExpandTexts(items[..|items| - 1], texts[..|texts| - 1]);
    }
  }

  /**
   * The example of `expand_string_range`'s documentation, '1-5, 8, 12-14', written
   * without the blanks after the commas.
   */
  lemma DocumentedExample()
    ensures var items := [Between(1, 5), Single(8), Between(12, 14)];
      ExpandStringRange(RangeText(items)) == Some([1, 2, 3, 4, 5, 8, 12, 13, 14])
  {
    var items := [Between(1, 5), Single(8), Between(12, 14)];
    ExpandRangeText(items);
    ExampleValues(items);
  }

  lemma ExampleValues(items: seq<RangeItem>)
    requires items == [Between(1, 5), Single(8), Between(12, 14)]
    ensures RangeValues(items) == [1, 2, 3, 4, 5, 8, 12, 13, 14]
  {
    var first := items[..1];
    var two := items[..2];
    assert first[..0] == [] && two[..1] == first && items[..2] == two;
    assert Span(1, 5) == [1, 2, 3, 4, 5];
    assert Span(12, 14) == [12, 13, 14];
    assert RangeValues(first) == [1, 2, 3, 4, 5];
    assert RangeValues(two) == [1, 2, 3, 4, 5, 8];
  }

  // ---------------------------------------------------------------------------------
  // Layer numbers and the layer gate
  // ---------------------------------------------------------------------------------

  /** The leading run of ASCII digits of `s`. */
  function LeadingDigits(s: string): (r: string)
    ensures |r| <= |s| && r == s[..|r|] && AllDigits(r)
    ensures |r| < |s| ==> !IsDigit(s[|r|])
    decreases |s|
  {
    if |s| > 0 && IsDigit(s[0]) then [s[0]] + LeadingDigits(s[1..]) else ""
  }

  /**
   * `int(re.search(r"(\d+)", name).group(1))`: the value of the first run of digits;
   * `None` when there is none (the call then raises `AttributeError`).
   */
  function LayerNumber(name: string): Option<nat>
    decreases |name|
  {
    if |name| == 0 then None
    else if IsDigit(name[0]) then Some(DigitsValue(LeadingDigits(name)))
    else LayerNumber(name[1..])
  }

  /** A name has no layer number exactly when none of its characters is a digit. */
  lemma {:induction false} LayerNumberNone(name: string)
    ensures LayerNumber(name).None? <==> forall k :: 0 <= k < |name| ==> !IsDigit(name[k])
    decreases |name|
  {
    if |name| > 0 && !IsDigit(name[0]) {
      LayerNumberNone(name[1..]);
      assert forall k :: 1 <= k < |name| ==> name[k] == name[1..][k - 1];
    }
  }

  /** A file named with a digit-free prefix, a number and a non-digit is read as that number. */
  lemma {:induction false} LayerNumberOfName(prefix: string, n: nat, rest: string)
    requires forall k :: 0 <= k < |prefix| ==> !IsDigit(prefix[k])
    requires |rest| == 0 || !IsDigit(rest[0])
    ensures LayerNumber(prefix + Decimal(n) + rest) == Some(n)
    decreases |prefix|
  {
    var s := prefix + Decimal(n) + rest;
    if |prefix| > 0 {
      assert s[1..] == prefix[1..] + Decimal(n) + rest;
      LayerNumberOfName(prefix[1..], n, rest);
    } else {
      assert s == Decimal(n) + rest;
      DigitRunOf(Decimal(n), rest);
    }
  }

  lemma {:induction false} DigitRunOf(d: string, rest: string)
    requires AllDigits(d)
    requires |rest| == 0 || !IsDigit(rest[0])
    ensures LeadingDigits(d + rest) == d
    decreases |d|
  {
    if |d| > 0 {
      assert (d + rest)[1..] == d[1..] + rest;
      DigitRunOf(d[1..], rest);
    } else {
      assert d + rest == rest;
    }
  }

  /** The exception class `re.search(...).group(1)` raises on a name without digits. */
  const NoDigitsError := "AttributeError"

  /** `layers_to_check is not None and n in layers_to_check`, for a layer number that was found. */
  predicate InLayers(layers: Option<seq<int>>, n: Option<nat>)
  {
    n.Some? && layers.Some? && n.value in layers.value
  }

  /** `Path(folder, name).with_suffix(".png")`, as a name inside the folder. */
  function WithPng(name: string): (r: string)
    ensures |name| > 0 ==> Paths.Suffix(r) == ".png"
  {
    var r := Paths.Stem(name) + ".png";
    if |name| > 0 then
      Paths.SuffixOfDotted(Paths.Stem(name), "png");
      assert Paths.Stem(name) + "." + "png" == r;
      r
    else r
  }

  // ---------------------------------------------------------------------------------
  // Files written and the image loop
  // ---------------------------------------------------------------------------------

  /** The image files written beside a slice file, named `<stem>_<kind>.png`. */
  datatype Beside = PrimaryFile | SecondaryFile | TertiaryFile | MembraneFile

  /** The name of the file of kind `kind` beside the slice file `name`. */
  function BesideName(name: string, kind: Beside): (r: string)
    ensures Paths.Suffix(r) == ".png"
  {
    var tag := match kind
      case PrimaryFile => "_primary"
      case SecondaryFile => "_secondary"
      case TertiaryFile => "_tertiary"
      case MembraneFile => "_membrane";
    var base := Paths.Stem(name) + tag;
    assert |base| > 0;
    WithPng(base)
  }

  /**
   * An effect on the slices folder: `cv2.imwrite` to the file `name`, `cv2.imwrite` to
   * the file of kind `kind` beside the slice file `slice`, or `os.remove`.
   */
  datatype FileOp =
    | Write(name: string, image: Image)
    | WriteBeside(slice: string, kind: Beside, image: Image)
    | Remove(name: string)

  /** The file an effect writes or removes. */
  function Target(op: FileOp): string
  {
    match op
    case Write(name, _) => name
    case WriteBeside(slice, kind, _) => BesideName(slice, kind)
    case Remove(name) => name
  }

  /**
   * What one image of the loop does: `continue` before the progress call, or the
   * files it writes followed by the progress call.
   */
  datatype Outcome = Continue | Proceed(ops: seq<FileOp>)

  /** Still running, stopped by a falsy progress answer (`return False`), or raised. */
  datatype Status = Running | Aborted | Raised(msg: string)

  datatype Progress = Progress(ops: seq<FileOp>, status: Status)

  /**
   * The loop over the images with the outcomes `outs`: file operations accumulate, a
   * raising image ends the loop, and after a proceeding image `i` a falsy
   * `progress(i)` ends it.
   */
  function RunLayers(outs: seq<Result<Outcome>>, progress: Option<nat -> bool>): (p: Progress)
    decreases |outs|
  {
    if |outs| == 0 then Progress([], Running)
    else Advance(RunLayers(outs[..|outs| - 1], progress), outs[|outs| - 1], |outs| - 1, progress)
  }

  /** One image `i` of the loop, with outcome `out`, after the progress `p` so far. */
  function Advance(p: Progress, out: Result<Outcome>, i: nat, progress: Option<nat -> bool>): Progress
  {
    if p.status != Running then p
    else match out
      case Err(e) => p.(status := Raised(e))
      case Ok(Continue) => p
      case Ok(Proceed(ops)) =>
        Progress(p.ops + ops, if progress.Some? && !progress.value(i) then Aborted else Running)
  }

  /** Appending the next image to the list read so far gives the next prefix. */
  lemma PrefixAppend<T>(s: seq<T>, i: nat)
    requires i < |s|
    ensures s[..i + 1] == s[..i] + [s[i]]
  {
  }

  /** The loop over the first `i + 1` images is the loop over the first `i` and one more step. */
  lemma RunLayersNext(outs: seq<Result<Outcome>>, progress: Option<nat -> bool>, i: nat)
    requires i < |outs|
    ensures RunLayers(outs[..i + 1], progress) == Advance(RunLayers(outs[..i], progress), outs[i], i, progress)
  {
    assert outs[..i + 1][..i] == outs[..i];
  }

  /**
   * The end of the loop body for image `i`, once its outcome is known: its files are
   * recorded, and the loop stops with the verdict on an exception or a falsy progress
   * answer.
   */
  method LoopStep(ghost outs: seq<Result<Outcome>>, progress: Option<nat -> bool>, i: nat,
                  outcome: Result<Outcome>, done: seq<FileOp>)
    returns (ops: seq<FileOp>, stop: Option<Result<bool>>)
    requires i < |outs| && outcome == outs[i]
    requires RunLayers(outs[..i], progress) == Progress(done, Running)
    ensures stop.None? ==> RunLayers(outs[..i + 1], progress) == Progress(ops, Running)
    ensures stop.Some? ==> ops == RunLayers(outs, progress).ops && stop.value == Verdict(RunLayers(outs, progress))
  {
    RunLayersNext(outs, progress, i);
    ops := done;
    if outcome.Err? {
      RunLayersStops(outs, progress, i + 1);
      return ops, Some(Err(outcome.msg));
    }
    if outcome.value.Proceed? {
      ops := ops + outcome.value.ops;
      if progress.Some? && !progress.value(i) {
        RunLayersStops(outs, progress, i + 1);
        return ops, Some(Ok(false));
      }
    }
    return ops, None;
  }

  /** What the function returns: `True`, `False`, or the exception. */
  function Verdict(p: Progress): (r: Result<bool>)
    ensures r == Ok(true) <==> p.status == Running
    ensures r == Ok(false) <==> p.status == Aborted
  {
    match p.status
    case Running => Ok(true)
    case Aborted => Ok(false)
    case Raised(msg) => Err(msg)
  }

  /** All the files the outcomes write, in order. */
  function AllOps(outs: seq<Result<Outcome>>): seq<FileOp>
    decreases |outs|
  {
    if |outs| == 0 then []
    else
      var last := outs[|outs| - 1];
      AllOps(outs[..|outs| - 1]) + (if last.Ok? && last.value.Proceed? then last.value.ops else [])
  }

  /** Whether progress answers falsy after a proceeding image. */
  predicate StopsAt(outs: seq<Result<Outcome>>, progress: Option<nat -> bool>, i: nat)
    requires i < |outs|
  {
    outs[i].Ok? && outs[i].value.Proceed? && progress.Some? && !progress.value(i)
  }

  /** Once stopped, the loop's outcome no longer changes. */
  lemma {:induction false} RunLayersStops(outs: seq<Result<Outcome>>, progress: Option<nat -> bool>, n: nat)
    requires n <= |outs| && RunLayers(outs[..n], progress).status != Running
    ensures RunLayers(outs, progress) == RunLayers(outs[..n], progress)
    decreases |outs| - n
  {
    if n < |outs| {
      assert outs[..n + 1][..n] == outs[..n];
      RunLayersStops(outs, progress, n + 1);
    } else {
      assert outs[..n] == outs;
    }
  }

  /**
   * Without a raising image, the loop returns `False` exactly when progress answers
   * falsy after some proceeding image, and otherwise returns `True` having written
   * every image's files.
   */
  lemma {:induction false} RunLayersVerdict(outs: seq<Result<Outcome>>, progress: Option<nat -> bool>)
    requires forall i :: 0 <= i < |outs| ==> outs[i].Ok?
    ensures !RunLayers(outs, progress).status.Raised?
    ensures RunLayers(outs, progress).status == Aborted <==> exists i :: 0 <= i < |outs| && StopsAt(outs, progress, i)
    ensures RunLayers(outs, progress).status == Running ==> RunLayers(outs, progress).ops == AllOps(outs)
    decreases |outs|
  {
    if |outs| > 0 {
      var front := outs[..|outs| - 1];
      var i := |outs| - 1;
      RunLayersVerdict(front, progress);
      forall k | 0 <= k < |front|
        ensures StopsAt(front, progress, k) == StopsAt(outs, progress, k)
      {
        assert front[k] == outs[k];
      }
      var p := RunLayers(front, progress);
      if p.status == Aborted {
        var k :| 0 <= k < |front| && StopsAt(front, progress, k);
        assert StopsAt(outs, progress, k);
      } else {
        assert p.status == Running;
        if StopsAt(outs, progress, i) {
          assert RunLayers(outs, progress).status == Aborted;
        } else {
          assert RunLayers(outs, progress).status == Running;
          assert forall k :: 0 <= k < |outs| ==> !StopsAt(outs, progress, k);
        }
      }
    }
  }

  /** Without a progress callback the loop never returns `False`. */
  lemma {:induction false} NoProgressNoAbort(outs: seq<Result<Outcome>>)
    ensures RunLayers(outs, None).status != Aborted
    decreases |outs|
  {
    if |outs| > 0 {
      NoProgressNoAbort(outs[..|outs| - 1]);
    }
  }

  /** Outcomes that write nothing leave the folder untouched, whatever the loop's verdict. */
  lemma {:induction false} NoWrites(outs: seq<Result<Outcome>>, progress: Option<nat -> bool>)
    requires forall i :: 0 <= i < |outs| && outs[i].Ok? && outs[i].value.Proceed? ==> outs[i].value.ops == []
    ensures RunLayers(outs, progress).ops == []
    decreases |outs|
  {
    if |outs| > 0 {
      var front := outs[..|outs| - 1];
      assert forall i :: 0 <= i < |front| ==> front[i] == outs[i];
      NoWrites(front, progress);
    }
  }
}
