/**
 * The model manager of the openmfd viewer: the list of GLB files served by the preview
 * server, its signature, per-file Last-Modified tracking used to detect changes, and the
 * choice of what the camera frames.
 */
module OpenmfdModels {
  import opened Wrappers
  import opened Text
  import JsArray

  /** One entry of `/glb_list.json`. */
  datatype GlbEntry = GlbEntry(name: string, kind: string, version: string, file: string)

  /**
   * A parsed `/glb_list.json` body: an array of entries, or some other (truthy) JSON value
   * given by its JSON text. Signatures (`JSON.stringify`) are modelled by the value itself.
   */
  datatype ListValue = Arr(entries: seq<GlbEntry>) | Other(json: string)

  /** The result of `fetchModelList`: `Failed` stands for `null`. */
  datatype Fetched = Failed | Got(list: ListValue)

  /** The result of one HEAD request: it threw, or it gave the Last-Modified header (`None` for null). */
  datatype Head = Threw | Header(value: Option<string>)

  datatype UpdateResult =
    | Offline
    | ListChanged(list: ListValue, signature: ListValue)
    | FilesChanged
    | NoChange

  /** A loaded scene: only its visibility matters here. */
  datatype Scene = Scene(visible: bool)

  /** What `getFrameBox` measures: the bounding-box model, the visible models, or nothing. */
  datatype FrameTarget = BoundingBox(index: nat) | VisibleModels(indices: seq<nat>) | NoTarget

  /** JavaScript truthiness of an optional string. */
  predicate Truthy(s: Option<string>) { s.Some? && s.value != "" }

  /** A HEAD result reports a change: both the recorded and the new value are set and differ. */
  predicate Changed(recorded: Option<string>, h: Head)
  {
    h.Header? && Truthy(recorded) && Truthy(h.value) && h.value != recorded
  }

  /** The recorded value after a HEAD result that reports no change: filled in when not yet set. */
  function Recorded(recorded: Option<string>, h: Head): (r: Option<string>)
    ensures h.Header? && !Truthy(recorded) ==> r == h.value
    ensures (h.Threw? || Truthy(recorded)) ==> r == recorded
  {
    if h.Header? && !Truthy(recorded) then h.value else recorded
  }

  /** A value seen for the first time is recorded and never reported as a change. */
  lemma FirstSeenRecorded(v: string)
    requires v != ""
    ensures !Changed(None, Header(Some(v)))
    ensures Recorded(None, Header(Some(v))) == Some(v)
  {
  }

  /** The index of the first file whose HEAD result reports a change, scanning from `from`. */
  function FirstChange(lm: seq<Option<string>>, head: int -> Head, from: nat): (r: Option<nat>)
    requires from <= |lm|
    ensures r.Some? ==> from <= r.value < |lm| && Changed(lm[r.value], head(r.value))
                        && forall j :: from <= j < r.value ==> !Changed(lm[j], head(j))
    ensures r.None? ==> forall j :: from <= j < |lm| ==> !Changed(lm[j], head(j))
    decreases |lm| - from
  {
    if from == |lm| then None
    else if Changed(lm[from], head(from)) then Some(from)
    else FirstChange(lm, head, from + 1)
  }

  /** The first index whose file URL, lower-cased, contains `bounding_box.glb`. */
  function BoundingBoxIndex(files: seq<GlbEntry>): (r: Option<nat>)
    ensures r.Some? ==> r.value < |files| && Contains(Lower(files[r.value].file), "bounding_box.glb")
                        && forall j :: 0 <= j < r.value ==> !Contains(Lower(files[j].file), "bounding_box.glb")
    ensures r.None? ==> forall j :: 0 <= j < |files| ==> !Contains(Lower(files[j].file), "bounding_box.glb")
  {
    if |files| == 0 then None
    else if Contains(Lower(files[0].file), "bounding_box.glb") then Some(0)
    else
      var r := BoundingBoxIndex(files[1..]);
      if r.Some? then Some(r.value + 1) else None
  }

  /** The indices of loaded, visible scenes, in order. */
  function VisibleIndices(scenes: seq<Option<Scene>>): (r: seq<nat>)
    ensures forall k :: 0 <= k < |r| ==> r[k] < |scenes| && scenes[r[k]].Some? && scenes[r[k]].value.visible
    ensures forall i :: 0 <= i < |scenes| && scenes[i].Some? && scenes[i].value.visible ==> i in r
    ensures forall a, b :: 0 <= a < b < |r| ==> r[a] < r[b]
  {
    if |scenes| == 0 then []
    else
      var rest := VisibleIndices(scenes[..|scenes| - 1]);
      var last := |scenes| - 1;
      if scenes[last].Some? && scenes[last].value.visible then rest + [last] else rest
  }

  /** `getVisibility(idx)`: true without a resolver, otherwise the resolver's answer. */
  function GetVisibility(resolver: Option<int -> bool>, idx: int): (v: bool)
    ensures resolver.None? ==> v
    ensures resolver.Some? ==> v == resolver.value(idx)
  {
    if resolver.None? then true else resolver.value(idx)
  }

  class ModelManager {
    var glbFiles: seq<GlbEntry>
    var scenes: seq<Option<Scene>>
    var lastModifieds: seq<Option<string>>
    var listSignature: Option<ListValue>

    predicate Valid()
      reads this
    {
      |lastModifieds| == |glbFiles|
    }

    constructor ()
      ensures Valid() && glbFiles == [] && scenes == [] && listSignature.None?
    {
      glbFiles := [];
      scenes := [];
      lastModifieds := [];
      listSignature := None;
    }

    /** `setModelList`: a non-array becomes the empty list; the signature and the Last-Modified slots are reset. */
    method SetModelList(list: ListValue)
      modifies this
      ensures Valid()
      ensures glbFiles == (if list.Arr? then list.entries else [])
      ensures listSignature == Some(Arr(glbFiles))
      ensures |lastModifieds| == |glbFiles| && forall i :: 0 <= i < |lastModifieds| ==> lastModifieds[i].None?
      ensures scenes == old(scenes)
    {
      glbFiles := if list.Arr? then list.entries else [];
      listSignature := Some(Arr(glbFiles));
      lastModifieds := seq(|glbFiles|, _ => None);
    }

    /**
     * `checkForUpdates` with the list fetch and the HEAD requests given as inputs: offline when
     * the fetch failed; a changed list when the signature differs (nothing else happens then);
     * otherwise the files are scanned in order, first values are recorded, and the first
     * changed value is stored and reported.
     */
    method CheckForUpdates(fetched: Fetched, head: int -> Head) returns (r: UpdateResult)
      requires Valid()
      modifies this
      ensures Valid()
      ensures fetched.Failed? ==> r == Offline && unchanged(this)
      ensures fetched.Got? && Some(fetched.list) != old(listSignature) ==>
                r == ListChanged(fetched.list, fetched.list) && unchanged(this)
      ensures fetched.Got? && Some(fetched.list) == old(listSignature) ==>
                var first := FirstChange(old(lastModifieds), head, 0);
                (r == FilesChanged <==> first.Some?)
                && (first.None? ==>
                      r == NoChange
                      && |lastModifieds| == |old(lastModifieds)|
                      && forall j :: 0 <= j < |lastModifieds| ==> lastModifieds[j] == Recorded(old(lastModifieds)[j], head(j)))
                && (first.Some? ==>
                      |lastModifieds| == |old(lastModifieds)|
                      && lastModifieds[first.value] == head(first.value).value
                      && (forall j :: 0 <= j < first.value ==> lastModifieds[j] == Recorded(old(lastModifieds)[j], head(j)))
                      && (forall j :: first.value < j < |lastModifieds| ==> lastModifieds[j] == old(lastModifieds)[j]))
      ensures glbFiles == old(glbFiles) && scenes == old(scenes) && listSignature == old(listSignature)
    {
      if fetched.Failed? {
        return Offline;
      }
      if Some(fetched.list) != listSignature {
        return ListChanged(fetched.list, fetched.list);
      }
      var i := 0;
      while i < |glbFiles|
        invariant 0 <= i <= |glbFiles| == |lastModifieds| == |old(lastModifieds)|
        invariant FirstChange(old(lastModifieds), head, 0) == FirstChange(old(lastModifieds), head, i)
        invariant forall j :: 0 <= j < i ==> lastModifieds[j] == Recorded(old(lastModifieds)[j], head(j))
        invariant forall j :: i <= j < |lastModifieds| ==> lastModifieds[j] == old(lastModifieds)[j]
        invariant glbFiles == old(glbFiles) && scenes == old(scenes) && listSignature == old(listSignature)
      {
        var h := head(i);
        if h.Header? {
          if Changed(lastModifieds[i], h) {
            lastModifieds := lastModifieds[i := h.value];
            return FilesChanged;
          }
          if !Truthy(lastModifieds[i]) {
            lastModifieds := lastModifieds[i := h.value];
          }
        }
        i := i + 1;
      }
      return NoChange;
    }

    /** `getBoundingBoxScene`: the loaded scene of the first bounding-box file, if any. */
    function BoundingBoxScene(): (r: Option<Scene>)
      reads this
      ensures BoundingBoxIndex(glbFiles).None? ==> r.None?
      ensures BoundingBoxIndex(glbFiles).Some? ==> r == JsArray.ReadAt(scenes, BoundingBoxIndex(glbFiles).value)
    {
      var idx := BoundingBoxIndex(glbFiles);
      if idx.None? then None else JsArray.ReadAt(scenes, idx.value)
    }

    /** `buildVisibleGroup`: the visible loaded scenes, or `None` when there is none. */
    method BuildVisibleGroup() returns (group: Option<seq<nat>>)
      ensures group.None? <==> forall i :: 0 <= i < |scenes| ==> !(scenes[i].Some? && scenes[i].value.visible)
      ensures group.Some? ==> group.value == VisibleIndices(scenes)
    {
      var members: seq<nat> := [];
      var i := 0;
      while i < |scenes|
        invariant 0 <= i <= |scenes|
        invariant members == VisibleIndices(scenes[..i])
      {
        assert scenes[..i + 1][..i] == scenes[..i];
        if scenes[i].Some? && scenes[i].value.visible {
          members := members + [i];
        }
        i := i + 1;
      }
      assert scenes[..i] == scenes;
      if |members| > 0 {
        assert scenes[members[0]].Some? && scenes[members[0]].value.visible;
        return Some(members);
      }
      return None;
    }

    /**
     * `getFrameBox(mode)`: in orthographic mode the bounding-box scene whenever it is loaded,
     * in other modes only when it is visible; otherwise the visible scenes; otherwise nothing.
     */
    function FrameTargetFor(mode: string): (t: FrameTarget)
      reads this
      ensures mode == "orthographic" && BoundingBoxScene().Some? ==> t.BoundingBox?
      ensures mode != "orthographic" && BoundingBoxScene().Some? && BoundingBoxScene().value.visible ==> t.BoundingBox?
      ensures t.BoundingBox? ==> BoundingBoxIndex(glbFiles) == Some(t.index) && BoundingBoxScene().Some?
      ensures t.VisibleModels? ==> t.indices == VisibleIndices(scenes) && |t.indices| > 0
      ensures t.NoTarget? ==> VisibleIndices(scenes) == []
    {
      var bbox := BoundingBoxScene();
      if bbox.Some? && (mode == "orthographic" || bbox.value.visible) then BoundingBox(BoundingBoxIndex(glbFiles).value)
      else if |VisibleIndices(scenes)| > 0 then VisibleModels(VisibleIndices(scenes))
      else NoTarget
    }
  }
}
