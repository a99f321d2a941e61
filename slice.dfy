/**
 * The bookkeeping of the openmfd slicer: polygon orientation and fill, the registry of
 * sliced components (two index-aligned lists), the placement of each instance relative
 * to its parent, and the layer loop that cuts a component and records its slices.
 * The geometry itself (manifold slicing, rasterisation, shapely buffering) is a parameter.
 */
module Slicing {
  import opened Wrappers
  import opened Numbers
  import opened Text

  // ---------------------------------------------------------------------------------
  // Orientation
  // ---------------------------------------------------------------------------------

  type Point = (int, int)

  /** The sum over consecutive points of (x[k+1] - x[k]) * (y[k+1] + y[k]); no closing edge. */
  function EdgeSum(pts: seq<Point>): int
  {
    if |pts| < 2 then 0
    else EdgeSum(pts[..|pts| - 1]) + Edge(pts[|pts| - 2], pts[|pts| - 1])
  }

  function Edge(a: Point, b: Point): int { (b.0 - a.0) * (b.1 + a.1) }

  /** `_is_clockwise`: the edge sum is positive. */
  predicate IsClockwise(pts: seq<Point>) { EdgeSum(pts) > 0 }

  /** The fill of a rasterised polygon: clockwise outlines are solid, the others holes. */
  function FillColor(pts: seq<Point>): (c: int)
    ensures c == 255 <==> IsClockwise(pts)
    ensures c == 0 <==> !IsClockwise(pts)
  {
    if IsClockwise(pts) then 255 else 0
  }

  function Reverse<T>(s: seq<T>): (r: seq<T>)
    ensures |r| == |s| && forall k :: 0 <= k < |s| ==> r[k] == s[|s| - 1 - k]
  {
    if |s| == 0 then [] else [s[|s| - 1]] + Reverse(s[..|s| - 1])
  }

  /** The edge sum from the front: the first edge, then the rest. */
  lemma {:induction false} EdgeSumFront(pts: seq<Point>)
    requires |pts| >= 2
    ensures EdgeSum(pts) == Edge(pts[0], pts[1]) + EdgeSum(pts[1..])
    decreases |pts|
  {
    if |pts| > 2 {
      EdgeSumFront(pts[..|pts| - 1]);
      assert pts[..|pts| - 1][1..] == pts[1..][..|pts| - 2];
    }
  }

  /** Walking the outline backwards negates the edge sum. */
  lemma {:induction false} ReverseNegates(pts: seq<Point>)
    ensures EdgeSum(Reverse(pts)) == -EdgeSum(pts)
    decreases |pts|
  {
    if |pts| >= 2 {
      var front := pts[..|pts| - 1];
      var r := Reverse(pts);
      ReverseNegates(front);
      EdgeSumFront(r);
      assert r[1..] == Reverse(front);
      assert r[0] == pts[|pts| - 1] && r[1] == pts[|pts| - 2];
      EdgeFlips(pts[|pts| - 2], pts[|pts| - 1]);
    }
  }

  /** An edge walked the other way contributes the opposite amount. */
  lemma EdgeFlips(a: Point, b: Point)
    ensures Edge(b, a) == -Edge(a, b)
  {
    assert (a.0 - b.0) * (a.1 + b.1) == -((b.0 - a.0) * (b.1 + a.1));
  }

  /** So a clockwise outline walked backwards is filled as a hole. */
  lemma ReversedClockwiseIsHole(pts: seq<Point>)
    requires IsClockwise(pts)
    ensures FillColor(Reverse(pts)) == 0
  {
    ReverseNegates(pts);
  }

  // ---------------------------------------------------------------------------------
  // Placement relative to the parent
  // ---------------------------------------------------------------------------------

  type DeviceId = nat

  /** An entry of a component's `positions` list: its parent (if any) and its offset. */
  datatype Placement = Placement(parent: Option<DeviceId>, x: real, y: real, z: real)

  /**
   * Where an instance sits: a root uses its own position with z scaled by its layer size;
   * a child uses its and its parent's positions in the parent's units, and the parent's
   * layer size.
   */
  datatype Frame =
    | Root(pos: Vec3, layerSize: real)
    | Child(parent: DeviceId, devicePos: Vec3, parentPos: Vec3, parentLayerSize: real)

  function RelativePosition(f: Frame): (p: Placement)
    ensures p.parent.None? <==> f.Root?
    ensures f.Child? ==> p.parent == Some(f.parent)
  {
    match f
    case Root(pos, ls) => Placement(None, pos.x, pos.y, pos.z * ls)
    case Child(parent, d, q, ls) => Placement(Some(parent), d.x - q.x, d.y - q.y, (d.z - q.z) * ls)
  }

  /** Moving a child together with its parent does not change the recorded offset. */
  lemma OffsetIgnoresCommonShift(parent: DeviceId, d: Vec3, q: Vec3, shift: Vec3, ls: real)
    ensures RelativePosition(Child(parent, d.Plus(shift), q.Plus(shift), ls)) == RelativePosition(Child(parent, d, q, ls))
  {
    assert (d.z + shift.z - (q.z + shift.z)) * ls == (d.z - q.z) * ls;
  }

  /** A child at its parent's position has offset zero. */
  lemma ChildAtParentOrigin(parent: DeviceId, q: Vec3, ls: real)
    ensures RelativePosition(Child(parent, q, q, ls)) == Placement(Some(parent), 0.0, 0.0, 0.0)
  {
  }

  // ---------------------------------------------------------------------------------
  // The layer loop
  // ---------------------------------------------------------------------------------

  /** The number of cuts at 0.5, 1.5, ... strictly below `height`. */
  function SliceCount(height: real): (n: nat)
  {
    if height <= 0.5 then 0 else -((-(height - 0.5)).Floor)
  }

  /** Exactly the cut heights k + 0.5 below the device height are used. */
  lemma SliceCountExact(height: real, k: nat)
    ensures k < SliceCount(height) <==> (k as real) + 0.5 < height
  {
  }

  /** The advance of the actual cut height after slice `n` of a variable-thickness component. */
  function VariableStep(sizes: seq<real>, layerSize: real, n: nat): real
    requires n < |sizes| && layerSize != 0.0
  {
    if n < |sizes| - 1 then sizes[n] / layerSize / 2.0 + sizes[n + 1] / layerSize / 2.0
    else sizes[n] / layerSize
  }

  /** The actual cut height before slice `n` of a variable-thickness component. */
  function VariableCut(sizes: seq<real>, layerSize: real, n: nat): real
    requires n <= |sizes| && layerSize != 0.0
  {
    if n == 0 then 0.5 else VariableCut(sizes, layerSize, n - 1) + VariableStep(sizes, layerSize, n - 1)
  }

  function Sum(s: seq<real>): real
  {
    if |s| == 0 then 0.0 else Sum(s[..|s| - 1]) + s[|s| - 1]
  }

  /**
   * What the layer loop of `_slice` produces: with a constant layer size, one slice per cut
   * height k + 0.5 below the device height, the k-th at `slice_position` (k + 1) * layer size;
   * with per-layer sizes, slices while the running cut height is below the device height,
   * each at the sum of the sizes so far, and an overrun when the sizes run out first.
   */
  ghost predicate Scheduled(height: real, layerSize: real, sizes: Option<seq<real>>, positions: seq<real>, overran: bool)
    requires sizes.Some? ==> layerSize != 0.0
  {
    match sizes
    case None =>
      !overran && |positions| == SliceCount(height) &&
      forall k :: 0 <= k < |positions| ==> positions[k] == (k + 1) as real * layerSize
    case Some(s) =>
      |positions| <= |s| &&
      (forall k :: 0 <= k < |positions| ==> VariableCut(s, layerSize, k) < height && positions[k] == Sum(s[..k + 1])) &&
      (overran <==> |positions| == |s| && VariableCut(s, layerSize, |positions|) < height) &&
      (!overran ==> VariableCut(s, layerSize, |positions|) >= height)
  }

  /** The schedule is determined by its inputs: the loop has one outcome. */
  lemma ScheduleUnique(height: real, layerSize: real, sizes: Option<seq<real>>,
                       p1: seq<real>, o1: bool, p2: seq<real>, o2: bool)
    requires sizes.Some? ==> layerSize != 0.0
    requires Scheduled(height, layerSize, sizes, p1, o1) && Scheduled(height, layerSize, sizes, p2, o2)
    ensures p1 == p2 && o1 == o2
  {
  }

  /**
   * The counters of `_slice`: the `slice_position` after each slice that is cut, and whether
   * the loop ran past the per-layer sizes of a variable-thickness component (an index error
   * raised after the earlier slices were recorded). `sizes` is None for a constant layer size.
   */
  method SliceSchedule(height: real, layerSize: real, sizes: Option<seq<real>>) returns (positions: seq<real>, overran: bool)
    requires sizes.Some? ==> layerSize != 0.0
    ensures Scheduled(height, layerSize, sizes, positions, overran)
  {
    if sizes.None? {
      positions := ConstantSchedule(height, layerSize);
      overran := false;
    } else {
      positions, overran := VariableSchedule(height, layerSize, sizes.value);
    }
  }

  /** The loop of `_slice` for a constant layer size. */
  method ConstantSchedule(height: real, layerSize: real) returns (positions: seq<real>)
    ensures |positions| == SliceCount(height)
    ensures forall k :: 0 <= k < |positions| ==> positions[k] == (k + 1) as real * layerSize
  {
    positions := [];
    var sliceNum := 0;
    var slicePosition := 0.0;
    var actual := 0.5;
    while actual < height
      invariant sliceNum <= SliceCount(height)
      invariant actual == sliceNum as real + 0.5
      invariant slicePosition == sliceNum as real * layerSize
      invariant |positions| == sliceNum
      invariant forall k :: 0 <= k < sliceNum ==> positions[k] == (k + 1) as real * layerSize
      decreases SliceCount(height) - sliceNum
    {
      SliceCountExact(height, sliceNum);
      slicePosition := slicePosition + layerSize;
      actual := actual + 1.0;
      positions := positions + [slicePosition];
      sliceNum := sliceNum + 1;
    }
    SliceCountExact(height, sliceNum);
  }

  /** The loop of `_slice` for per-layer sizes; `overran` is the index error past their end. */
  method VariableSchedule(height: real, layerSize: real, s: seq<real>) returns (positions: seq<real>, overran: bool)
    requires layerSize != 0.0
    ensures Scheduled(height, layerSize, Some(s), positions, overran)
  {
    positions := [];
    overran := false;
    var sliceNum := 0;
    var slicePosition := 0.0;
    var actual := 0.5;
    while actual < height
      invariant sliceNum <= |s|
      invariant actual == VariableCut(s, layerSize, sliceNum)
      invariant slicePosition == Sum(s[..sliceNum])
      invariant |positions| == sliceNum
      invariant forall k :: 0 <= k < sliceNum ==>
                  VariableCut(s, layerSize, k) < height && positions[k] == Sum(s[..k + 1])
      decreases |s| - sliceNum
    {
      if sliceNum >= |s| {
        overran := true;
        VariableScheduled(height, layerSize, s, positions, overran);
        return;
      }
      actual, slicePosition := VariableAdvance(s, layerSize, sliceNum, actual, slicePosition);
      positions := positions + [slicePosition];
      sliceNum := sliceNum + 1;
    }
    VariableScheduled(height, layerSize, s, positions, overran);
  }

  /** The loop's facts at either exit are the per-layer schedule. */
  lemma VariableScheduled(height: real, layerSize: real, s: seq<real>, positions: seq<real>, overran: bool)
    requires layerSize != 0.0 && |positions| <= |s|
    requires forall k :: 0 <= k < |positions| ==> VariableCut(s, layerSize, k) < height && positions[k] == Sum(s[..k + 1])
    requires overran ==> |positions| == |s| && VariableCut(s, layerSize, |positions|) < height
    requires !overran ==> VariableCut(s, layerSize, |positions|) >= height
    ensures Scheduled(height, layerSize, Some(s), positions, overran)
  {
  }

  /** The counter updates of one pass of the per-layer loop. */
  method VariableAdvance(s: seq<real>, layerSize: real, sliceNum: nat, actual: real, slicePosition: real)
    returns (actual': real, slicePosition': real)
    requires sliceNum < |s| && layerSize != 0.0
    requires actual == VariableCut(s, layerSize, sliceNum) && slicePosition == Sum(s[..sliceNum])
    ensures actual' == VariableCut(s, layerSize, sliceNum + 1) && slicePosition' == Sum(s[..sliceNum + 1])
  {
    assert s[..sliceNum + 1][..sliceNum] == s[..sliceNum];
    slicePosition' := slicePosition + s[sliceNum];
    if sliceNum < |s| - 1 {
      actual' := actual + (s[sliceNum] / layerSize / 2.0 + s[sliceNum + 1] / layerSize / 2.0);
    } else {
      actual' := actual + s[sliceNum] / layerSize;
    }
  }

  /** Python's `round(x, 1)` on an exact value: to the nearest tenth, ties to an even tenth. */
  function RoundTenth(x: real): (r: real)
    ensures -0.05 <= r - x <= 0.05
  {
    var t := x * 10.0;
    var f := t.Floor;
    var d := t - f as real;
    var n := if d < 0.5 then f else if d > 0.5 then f + 1 else if f % 2 == 0 then f else f + 1;
    n as real / 10.0
  }

  /** `(W + 7) // 8`: bytes per row of the bit-packed image. */
  function PackedWidth(w: nat): (b: nat)
    ensures 8 * b >= w && 8 * b < w + 8
  {
    (w + 7) / 8
  }

  /** `f"{name}-slice{n:04}.png"` */
  function SliceImageName(name: string, n: nat): string
  {
    name + "-slice" + ZeroPad(n, 4) + ".png"
  }

  /** Different slice numbers of one component give different image names. */
  lemma SliceNamesDistinct(name: string, n: nat, m: nat)
    requires n != m
    ensures SliceImageName(name, n) != SliceImageName(name, m)
  {
    var a := SliceImageName(name, n);
    var b := SliceImageName(name, m);
    var lo := |name| + 6;
    assert a[lo..|a| - 4] == ZeroPad(n, 4);
    assert b[lo..|b| - 4] == ZeroPad(m, 4);
  }

  /** One entry of a component's `slices` list (the packed pixels themselves are left out). */
  datatype SliceRecord = SliceRecord(imageName: string, imageWidth: nat, packedWidth: nat, layerPosition: real)

  function Records(name: string, width: nat, positions: seq<real>): (rs: seq<SliceRecord>)
    ensures |rs| == |positions|
    ensures forall k :: 0 <= k < |rs| ==>
              rs[k].imageName == SliceImageName(name, k) && rs[k].packedWidth == PackedWidth(width) &&
              rs[k].layerPosition == RoundTenth(positions[k] * 1000.0)
  {
    seq(|positions|, k requires 0 <= k < |positions| =>
      SliceRecord(SliceImageName(name, k), width, PackedWidth(width), RoundTenth(positions[k] * 1000.0)))
  }

  // ---------------------------------------------------------------------------------
  // The registry of sliced components
  // ---------------------------------------------------------------------------------

  datatype SliceInfo = SliceInfo(positions: seq<Placement>, slices: seq<SliceRecord>)

  /** A component as the slicer sees it; `size` is in pixels and layers. */
  datatype Device = Device(
    id: DeviceId, name: string, position: Vec3, layerSize: real, width: nat, height: real,
    layerSizes: Option<seq<real>>, hasBulk: bool, maskKeys: seq<string>,
    subs: seq<Device>, subPositions: seq<Vec3>)

  /** The identities of a component and of every component below it. */
  function Ids(d: Device): (ids: set<DeviceId>)
    ensures d.id in ids
    ensures forall k :: 0 <= k < |d.subs| ==> Ids(d.subs[k]) <= ids
    decreases d
  {
    {d.id} + set k, x | 0 <= k < |d.subs| && x in Ids(d.subs[k]) :: x
  }

  /**
   * A well-formed component tree: one position per sub-component (in this component's
   * units), a nonzero layer size where per-layer sizes are divided by it, and no component
   * inside itself.
   */
  predicate ValidTree(d: Device)
    decreases d
  {
    |d.subPositions| == |d.subs| && (d.layerSizes.Some? ==> d.layerSize != 0.0) &&
    forall k :: 0 <= k < |d.subs| ==> ValidTree(d.subs[k]) && d.id !in Ids(d.subs[k])
  }

  /** `sliced_devices` and `sliced_devices_info`: two lists kept index-aligned. */
  class SliceRegistry {
    var devices: seq<DeviceId>
    var infos: seq<SliceInfo>

    /** The lists have the same length and no component appears twice. */
    ghost predicate Valid()
      reads this
    {
      |devices| == |infos| && forall i, j :: 0 <= i < j < |devices| ==> devices[i] != devices[j]
    }

    constructor()
      ensures Valid() && devices == [] && infos == []
    {
      devices := [];
      infos := [];
    }

    /** `sliced_devices.index(device)` */
    function IndexOf(id: DeviceId): (i: nat)
      reads this
      requires id in devices
      ensures i < |devices| && devices[i] == id
      ensures forall j :: 0 <= j < i ==> devices[j] != id
    {
      IndexFrom(devices, id)
    }

    /**
     * The `device in sliced_devices` test of `slice_component`: a known component only gets
     * one more placement; a new one is appended with its first placement and no slices.
     */
    method Register(id: DeviceId, placement: Placement) returns (isNew: bool)
      requires Valid()
      modifies this
      ensures Valid()
      ensures isNew <==> id !in old(devices)
      ensures !isNew ==>
                devices == old(devices) &&
                var i := IndexOf(id);
                infos == old(infos)[i := old(infos)[i].(positions := old(infos)[i].positions + [placement])]
      ensures isNew ==> devices == old(devices) + [id] && infos == old(infos) + [SliceInfo([placement], [])]
    {
      if id in devices {
        var i := IndexOf(id);
        infos := infos[i := infos[i].(positions := infos[i].positions + [placement])];
        return false;
      }
      devices := devices + [id];
      infos := infos + [SliceInfo([placement], [])];
      return true;
    }

    /** Appends one slice record to the entry of a registered component. */
    method AddSlice(id: DeviceId, record: SliceRecord)
      requires Valid() && id in devices
      modifies this
      ensures Valid() && devices == old(devices)
      ensures infos == old(infos)[IndexOf(id) := old(infos)[IndexOf(id)].(slices := old(infos)[IndexOf(id)].slices + [record])]
    {
      var i := IndexOf(id);
      infos := infos[i := infos[i].(slices := infos[i].slices + [record])];
    }

    /** Appends slice records one by one, as the layer loop produces them. */
    method AppendSlices(id: DeviceId, records: seq<SliceRecord>)
      requires Valid() && id in devices
      modifies this
      ensures Valid() && devices == old(devices)
      ensures infos == old(infos)[IndexOf(id) := old(infos)[IndexOf(id)].(slices := old(infos)[IndexOf(id)].slices + records)]
    {
      var i := IndexOf(id);
      var before := infos[i];
      assert before.(slices := before.slices + records[..0]) == before;
      for k := 0 to |records|
        invariant Valid() && devices == old(devices) && IndexOf(id) == i
        invariant infos == old(infos)[i := before.(slices := before.slices + records[..k])]
      {
        assert records[..k + 1] == records[..k] + [records[k]];
        ghost var prev := infos;
        AddSlice(id, records[k]);
        assert prev[i].slices == before.slices + records[..k];
        assert infos == prev[i := prev[i].(slices := prev[i].slices + [records[k]])];
        assert before.slices + records[..k] + [records[k]] == before.slices + records[..k + 1];
      }
      assert records[..|records|] == records;
    }
  }

  function IndexFrom(s: seq<DeviceId>, id: DeviceId): (i: nat)
    requires id in s
    ensures i < |s| && s[i] == id && forall j :: 0 <= j < i ==> s[j] != id
  {
    if s[0] == id then 0 else 1 + IndexFrom(s[1..], id)
  }

  /**
   * `_slice`: cuts the component layer by layer; each slice is recorded on the component's
   * entry only when the tracking list is non-empty (the mask passes are given fresh,
   * empty lists).
   */
  method SliceDevice(device: Device, registry: SliceRegistry) returns (positions: seq<real>, overran: bool)
    requires device.layerSizes.Some? ==> device.layerSize != 0.0
    requires |registry.devices| > 0 ==> registry.Valid() && device.id in registry.devices
    modifies registry
    ensures Scheduled(device.height, device.layerSize, device.layerSizes, positions, overran)
    ensures registry.devices == old(registry.devices)
    ensures |registry.devices| > 0 ==>
              registry.Valid() &&
              var i := registry.IndexOf(device.id);
              registry.infos == old(registry.infos)[i := old(registry.infos)[i].(
                slices := old(registry.infos)[i].slices + Records(device.name, device.width, positions))]
    ensures |registry.devices| == 0 ==> registry.infos == old(registry.infos)
  {
    positions, overran := SliceSchedule(device.height, device.layerSize, device.layerSizes);
    if |registry.devices| > 0 {
      registry.AppendSlices(device.id, Records(device.name, device.width, positions));
    }
  }

  /** The per-layer sizes of the component run out before its height is reached. */
  ghost predicate Overruns(d: Device)
    requires d.layerSizes.Some? ==> d.layerSize != 0.0
  {
    exists positions :: Scheduled(d.height, d.layerSize, d.layerSizes, positions, true)
  }

  /** Every component of the tree has bulk shapes and a schedule that does not overrun. */
  ghost predicate Sliceable(d: Device)
    requires ValidTree(d)
    decreases d
  {
    d.hasBulk && !Overruns(d) && forall k :: 0 <= k < |d.subs| ==> Sliceable(d.subs[k])
  }

  /**
   * `slice_component` for one instance `device` placed by `frame`: registers it (a known
   * component only gains a placement); a new one then has its sub-components sliced, fails
   * without bulk shapes, and is cut into layers, its slices recorded on its own entry.
   */
  method SliceComponent(device: Device, frame: Frame, registry: SliceRegistry) returns (r: Result<()>)
    requires registry.Valid() && ValidTree(device)
    modifies registry
    decreases device, 1
    ensures registry.Valid()
    ensures |registry.devices| >= |old(registry.devices)| && registry.devices[..|old(registry.devices)|] == old(registry.devices)
    ensures device.id in registry.devices
    ensures forall j :: 0 <= j < |old(registry.devices)| && old(registry.devices)[j] !in Ids(device) ==>
              registry.infos[j] == old(registry.infos)[j]
    ensures device.id in old(registry.devices) ==>
              registry.devices == old(registry.devices) && r.Ok? &&
              var i := registry.IndexOf(device.id);
              registry.infos == old(registry.infos)[i := old(registry.infos)[i].(
                positions := old(registry.infos)[i].positions + [RelativePosition(frame)])]
    ensures device.id !in old(registry.devices) ==>
              registry.devices[|old(registry.devices)|] == device.id &&
              registry.infos[|old(registry.devices)|].positions == [RelativePosition(frame)]
    ensures device.id !in old(registry.devices) && !device.hasBulk ==> r.Err?
    ensures device.id !in old(registry.devices) && r.Ok? ==>
              device.hasBulk &&
              (forall k :: 0 <= k < |device.subs| ==> device.subs[k].id in registry.devices) &&
              exists positions :: Scheduled(device.height, device.layerSize, device.layerSizes, positions, false) &&
                registry.infos[|old(registry.devices)|].slices == Records(device.name, device.width, positions)
    ensures device.id !in old(registry.devices) && r.Err? ==>
              registry.infos[|old(registry.devices)|].slices == [] ||
              exists positions :: Scheduled(device.height, device.layerSize, device.layerSizes, positions, true) &&
                registry.infos[|old(registry.devices)|].slices == Records(device.name, device.width, positions)
    ensures r.Err? ==> !Sliceable(device)
  {
    var isNew := registry.Register(device.id, RelativePosition(frame));
    if !isNew {
      return Ok(());
    }
    ghost var at := |old(registry.devices)|;
    ghost var registeredInfos := registry.infos;
    assert registeredInfos[at].slices == [];
    r := SliceSubs(device, registry, at);
    if r.Err? {
      return;
    }
    ghost var registered := registry.devices;
    ghost var positions, overran;
    r, positions, overran := CutComponent(device, registry, at);
    assert registry.devices == registered;
    if r.Err? && device.hasBulk {
      assert Overruns(device);
    }
  }

  /**
   * The end of `slice_component` for the new component at index `at`: fails without bulk
   * shapes, otherwise records the slices of its schedule on its own entry, fails exactly
   * when the per-layer sizes run out, and cuts the masks without recording them.
   */
  method CutComponent(device: Device, registry: SliceRegistry, ghost at: nat)
    returns (r: Result<()>, ghost positions: seq<real>, ghost overran: bool)
    requires registry.Valid() && (device.layerSizes.Some? ==> device.layerSize != 0.0)
    requires at < |registry.devices| && registry.devices[at] == device.id
    modifies registry
    ensures registry.Valid() && registry.devices == old(registry.devices) && |registry.infos| == |old(registry.infos)|
    ensures forall j :: 0 <= j < |registry.infos| && j != at ==> registry.infos[j] == old(registry.infos)[j]
    ensures registry.infos[at].positions == old(registry.infos)[at].positions
    ensures !device.hasBulk ==> r == Err("Tried to subtract without bulk") && registry.infos == old(registry.infos)
    ensures device.hasBulk ==>
              Scheduled(device.height, device.layerSize, device.layerSizes, positions, overran) &&
              registry.infos[at].slices == old(registry.infos)[at].slices + Records(device.name, device.width, positions) &&
              (r.Err? <==> overran) && (overran ==> r == Err("list index out of range"))
  {
    positions, overran := [], false;
    if !device.hasBulk {
      return Err("Tried to subtract without bulk"), positions, overran;
    }
    assert registry.IndexOf(device.id) == at;
    var cutPositions, cutOverran := SliceDevice(device, registry);
    positions, overran := cutPositions, cutOverran;
    if cutOverran {
      return Err("list index out of range"), positions, overran;
    }
    ghost var cut := registry.infos;
    for m := 0 to |device.maskKeys|
      invariant registry.Valid() && registry.devices == old(registry.devices) && registry.infos == cut
    {
      var scratch := new SliceRegistry();
      var maskPositions, maskOverran := SliceDevice(device, scratch);
    }
    r := Ok(());
  }

  /**
   * The loop of `slice_component` over the sub-components of the newly registered
   * component at index `at`: stops at the first failure, keeps the registered prefix and
   * that component's own entry, and leaves alone every entry outside the tree. When it
   * succeeds every sub-component is registered.
   */
  method SliceSubs(device: Device, registry: SliceRegistry, ghost at: nat) returns (r: Result<()>)
    requires registry.Valid() && ValidTree(device)
    requires at < |registry.devices| && registry.devices[at] == device.id
    modifies registry
    decreases device, 0
    ensures registry.Valid()
    ensures |registry.devices| >= |old(registry.devices)| && registry.devices[..|old(registry.devices)|] == old(registry.devices)
    ensures registry.infos[at] == old(registry.infos)[at]
    ensures forall j :: 0 <= j < |old(registry.devices)| && old(registry.devices)[j] !in Ids(device) ==>
              registry.infos[j] == old(registry.infos)[j]
    ensures r.Ok? ==> forall k :: 0 <= k < |device.subs| ==> device.subs[k].id in registry.devices
    ensures r.Err? ==> exists k :: 0 <= k < |device.subs| && !Sliceable(device.subs[k])
  {
    for k := 0 to |device.subs|
      invariant registry.Valid()
      invariant |registry.devices| >= |old(registry.devices)| && registry.devices[..|old(registry.devices)|] == old(registry.devices)
      invariant registry.infos[at] == old(registry.infos)[at]
      invariant forall j :: 0 <= j < |old(registry.devices)| && old(registry.devices)[j] !in Ids(device) ==>
                  registry.infos[j] == old(registry.infos)[j]
      invariant SubsRegistered(device, k, registry.devices)
    {
      ghost var before := registry.devices;
      var sr := SliceSub(device, k, registry, at);
      Extends(old(registry.devices), before, registry.devices);
      if sr.Err? {
        return sr;
      }
      RegisteredGrows(device, k, before, registry.devices);
    }
    r := Ok(());
  }

  /** One pass of that loop: slices sub-component `k` of the component at index `at`. */
  method SliceSub(device: Device, k: nat, registry: SliceRegistry, ghost at: nat) returns (r: Result<()>)
    requires registry.Valid() && ValidTree(device) && k < |device.subs|
    requires at < |registry.devices| && registry.devices[at] == device.id
    modifies registry
    decreases device.subs[k], 2
    ensures registry.Valid()
    ensures |registry.devices| >= |old(registry.devices)| && registry.devices[..|old(registry.devices)|] == old(registry.devices)
    ensures registry.infos[at] == old(registry.infos)[at]
    ensures forall j :: 0 <= j < |old(registry.devices)| && old(registry.devices)[j] !in Ids(device) ==>
              registry.infos[j] == old(registry.infos)[j]
    ensures device.subs[k].id in registry.devices
    ensures r.Err? ==> !Sliceable(device.subs[k])
  {
    var sub := device.subs[k];
    assert Ids(sub) <= Ids(device) && device.id !in Ids(sub);
    r := SliceComponent(sub, Child(device.id, device.subPositions[k], device.position, device.layerSize), registry);
  }

  /** Growing at the end twice is growing at the end. */
  lemma Extends(a: seq<DeviceId>, b: seq<DeviceId>, c: seq<DeviceId>)
    requires |b| >= |a| && b[..|a|] == a && |c| >= |b| && c[..|b|] == b
    ensures |c| >= |a| && c[..|a|] == a
    ensures forall j :: 0 <= j < |a| ==> c[j] == a[j] && b[j] == a[j]
  {
    assert c[..|a|] == c[..|b|][..|a|];
  }

  /** The first `k` sub-components of `d` are in the list `ds`. */
  ghost predicate SubsRegistered(d: Device, k: nat, ds: seq<DeviceId>)
    requires k <= |d.subs|
  {
    forall k' :: 0 <= k' < k ==> d.subs[k'].id in ds
  }

  /** Registered sub-components stay registered when the list grows at its end. */
  lemma RegisteredGrows(d: Device, k: nat, before: seq<DeviceId>, after: seq<DeviceId>)
    requires k < |d.subs| && SubsRegistered(d, k, before) && d.subs[k].id in after
    requires |after| >= |before| && after[..|before|] == before
    ensures SubsRegistered(d, k + 1, after)
  {
    forall k' | 0 <= k' < k + 1
      ensures d.subs[k'].id in after
    {
      if k' < k {
        var i :| 0 <= i < |before| && before[i] == d.subs[k'].id;
        assert after[i] == before[i];
      }
    }
  }

}
