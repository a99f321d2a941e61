/**
 * Camera slots of the openmfd viewer: up to five saved views, the active slot, home
 * mode, the projection mode, persistence in browser storage and the guard that ignores
 * control changes while a saved view is being applied.
 */
module OpenmfdCamera {
  import opened Wrappers
  import opened Numbers
  import JsArray

  /** A saved view; an absent or empty mode is the empty string. */
  datatype CameraState = CameraState(pos: Vec3, target: Vec3, mode: string)

  /** The storage entry as `JSON.parse` sees it; an active index that is not a number is `None`. */
  datatype Stored =
    | Missing
    | Unparsable
    | Parsed(cameras: Option<seq<Option<CameraState>>>, activeIndex: Option<real>)

  const MaxCameras: int := 5
  const Perspective: string := "perspective"

  /**
   * `loadCameraStates` as a function of the stored entry: `None` for a missing, unparsable or
   * non-array entry; otherwise the cameras, the active index (an integer one clamped into
   * [0, MAX_CAMERAS − 1], any other one leaving `oldActive`) and whether any camera was saved.
   */
  function Load(stored: Stored, oldActive: int): (r: Option<(seq<Option<CameraState>>, int, bool)>)
    ensures !stored.Parsed? || stored.cameras.None? ==> r.None?
    ensures stored.Parsed? && stored.cameras.Some? ==>
              r.Some? && r.value.0 == stored.cameras.value && r.value.2 == (|stored.cameras.value| > 0)
    ensures r.Some? && IntegerValue(stored.activeIndex) ==> 0 <= r.value.1 <= MaxCameras - 1
    ensures r.Some? && IntegerValue(stored.activeIndex) && 0.0 <= stored.activeIndex.value <= (MaxCameras - 1) as real ==>
              r.value.1 as real == stored.activeIndex.value
    ensures r.Some? && IntegerValue(stored.activeIndex) && stored.activeIndex.value < 0.0 ==> r.value.1 == 0
    ensures r.Some? && IntegerValue(stored.activeIndex) && stored.activeIndex.value > (MaxCameras - 1) as real ==>
              r.value.1 == MaxCameras - 1
    ensures r.Some? && !IntegerValue(stored.activeIndex) ==> r.value.1 == oldActive
  {
    if !stored.Parsed? || stored.cameras.None? then None
    else
      var cams := stored.cameras.value;
      var active := if IntegerValue(stored.activeIndex)
                    then Min(Max(stored.activeIndex.value.Floor, 0), MaxCameras - 1)
                    else oldActive;
      Some((cams, active, |cams| > 0))
  }

  predicate IntegerValue(x: Option<real>) { x.Some? && IsIntegral(x.value) }

  /** `saveCameraStates` followed by `JSON.parse`. */
  function Save(cameras: seq<Option<CameraState>>, active: int): (s: Stored)
    ensures s.Parsed? && s.cameras == Some(cameras)
  {
    Parsed(Some(cameras), Some(active as real))
  }

  /** Saving and loading back restores the slots and an in-range active index. */
  lemma SaveLoadRoundTrip(cameras: seq<Option<CameraState>>, active: int, anyActive: int)
    requires 0 <= active < MaxCameras
    ensures Load(Save(cameras, active), anyActive) == Some((cameras, active, |cameras| > 0))
  {
    assert (active as real).Floor == active;
  }

  class CameraSystem {
    var cameras: seq<Option<CameraState>>
    var active: int
    var homeMode: bool
    var mode: string
    var pos: Vec3
    var target: Vec3
    var applying: bool
    var storage: Stored

    predicate Valid()
      reads this
    {
      0 <= active
    }

    constructor (initialPos: Vec3, initialTarget: Vec3, stored: Stored)
      ensures Valid()
      ensures cameras == [] && active == 0 && !homeMode && mode == Perspective && !applying
      ensures pos == initialPos && target == initialTarget && storage == stored
    {
      cameras := [];
      active := 0;
      homeMode := false;
      mode := Perspective;
      pos := initialPos;
      target := initialTarget;
      applying := false;
      storage := stored;
    }

    /** `getCurrentCameraState` */
    function CurrentState(): (s: CameraState)
      reads this
      ensures s.pos == pos && s.target == target && s.mode == mode
    {
      CameraState(pos, target, mode)
    }

    method SaveCameraStates()
      modifies this
      ensures storage == Save(cameras, active)
      ensures cameras == old(cameras) && active == old(active) && homeMode == old(homeMode)
      ensures mode == old(mode) && pos == old(pos) && target == old(target) && applying == old(applying)
    {
      storage := Save(cameras, active);
    }

    /** `loadCameraStates`: installs what `Load` finds in storage. */
    method LoadCameraStates() returns (hasSaved: bool)
      requires Valid()
      modifies this
      ensures Valid()
      ensures Load(old(storage), old(active)).None? ==> !hasSaved && unchanged(this)
      ensures Load(old(storage), old(active)).Some? ==>
                cameras == Load(old(storage), old(active)).value.0
                && active == Load(old(storage), old(active)).value.1
                && hasSaved == Load(old(storage), old(active)).value.2
      ensures storage == old(storage) && homeMode == old(homeMode) && mode == old(mode)
      ensures pos == old(pos) && target == old(target) && applying == old(applying)
    {
      var r := Load(storage, active);
      if r.None? {
        return false;
      }
      cameras := r.value.0;
      active := r.value.1;
      hasSaved := r.value.2;
    }

    /** `initCameraStates`: loads, enters home mode, and starts empty when nothing was saved. */
    method InitCameraStates() returns (hasSaved: bool)
      requires Valid()
      modifies this
      ensures Valid()
      ensures homeMode
      ensures !hasSaved ==> cameras == [] && active == 0
      ensures hasSaved ==> |cameras| > 0
      ensures mode == old(mode) && pos == old(pos) && target == old(target) && storage == old(storage)
    {
      hasSaved := LoadCameraStates();
      homeMode := true;
      if !hasSaved {
        cameras := [];
        active := 0;
      }
    }

    /**
     * `updateActiveCameraStateFromControls`: nothing in home mode or on an empty slot;
     * otherwise the active slot takes the current view and the slots are saved.
     */
    method UpdateActiveCameraStateFromControls()
      requires Valid()
      modifies this
      ensures Valid()
      ensures old(homeMode) || JsArray.ReadAt(old(cameras), old(active)).None? ==> unchanged(this)
      ensures !old(homeMode) && JsArray.ReadAt(old(cameras), old(active)).Some? ==>
                cameras == JsArray.WriteAt(old(cameras), active, CurrentState())
                && storage == Save(cameras, active)
      ensures active == old(active) && homeMode == old(homeMode) && mode == old(mode)
      ensures pos == old(pos) && target == old(target) && applying == old(applying)
    {
      if homeMode {
        return;
      }
      if JsArray.ReadAt(cameras, active).None? {
        return;
      }
      cameras := JsArray.WriteAt(cameras, active, CurrentState());
      SaveCameraStates();
    }

    /** The controls' `change` listener: ignored while a saved view is being applied. */
    method OnControlsChange()
      requires Valid()
      modifies this
      ensures Valid()
      ensures old(applying) ==> unchanged(this)
      ensures !old(applying) && !old(homeMode) && JsArray.ReadAt(old(cameras), old(active)).Some? ==>
                cameras == JsArray.WriteAt(old(cameras), active, CurrentState())
      ensures !old(applying) && (old(homeMode) || JsArray.ReadAt(old(cameras), old(active)).None?) ==>
                unchanged(this)
      ensures active == old(active) && homeMode == old(homeMode) && mode == old(mode)
      ensures pos == old(pos) && target == old(target) && applying == old(applying)
    {
      if applying {
        return;
      }
      UpdateActiveCameraStateFromControls();
    }

    /**
     * `setCameraPose`: moves the view. `controls.update()` reports a change only when the
     * camera actually moved, so setting the pose it already has changes no slot.
     */
    method SetCameraPose(newPos: Vec3, newTarget: Vec3)
      requires Valid()
      modifies this
      ensures Valid()
      ensures pos == newPos && target == newTarget
      ensures old(applying) || (newPos == old(pos) && newTarget == old(target)) ==>
                cameras == old(cameras) && storage == old(storage)
      ensures !old(applying) && (newPos != old(pos) || newTarget != old(target)) &&
              !old(homeMode) && JsArray.ReadAt(old(cameras), old(active)).Some? ==>
                cameras == JsArray.WriteAt(old(cameras), active, CurrentState())
      ensures !old(applying) && (old(homeMode) || JsArray.ReadAt(old(cameras), old(active)).None?) ==>
                cameras == old(cameras)
      ensures active == old(active) && homeMode == old(homeMode) && mode == old(mode) && applying == old(applying)
    {
      var moved := newPos != pos || newTarget != target;
      pos := newPos;
      target := newTarget;
      if moved {
        OnControlsChange();
      }
    }

    /** `setCameraMode` */
    method SetCameraMode(next: string)
      modifies this
      ensures mode == next
      ensures cameras == old(cameras) && active == old(active) && homeMode == old(homeMode)
      ensures pos == old(pos) && target == old(target) && applying == old(applying) && storage == old(storage)
    {
      if next == mode {
        return;
      }
      mode := next;
    }

    /** `ensureCameraState(index)`: fills an empty slot from the view and never overwrites a filled one. */
    method EnsureCameraState(index: nat)
      modifies this
      ensures JsArray.ReadAt(old(cameras), index).Some? ==> cameras == old(cameras)
      ensures JsArray.ReadAt(old(cameras), index).None? ==> cameras == JsArray.WriteAt(old(cameras), index, CurrentState())
      ensures JsArray.ReadAt(cameras, index).Some?
      ensures active == old(active) && homeMode == old(homeMode) && mode == old(mode)
      ensures pos == old(pos) && target == old(target) && applying == old(applying) && storage == old(storage)
    {
      if JsArray.ReadAt(cameras, index).None? {
        cameras := JsArray.WriteAt(cameras, index, CurrentState());
      }
    }

    /**
     * `applyCameraState(index)`: nothing for an empty slot. Otherwise home mode ends, the
     * slot's mode and pose are adopted with change events ignored, and the slots are saved.
     */
    method ApplyCameraState(index: int)
      requires Valid()
      modifies this
      ensures Valid()
      ensures JsArray.ReadAt(old(cameras), index).None? ==> unchanged(this)
      ensures JsArray.ReadAt(old(cameras), index).Some? ==>
                var s := JsArray.ReadAt(old(cameras), index).value;
                !homeMode && mode == (if s.mode != "" then s.mode else Perspective)
                && pos == s.pos && target == s.target
                && cameras == old(cameras) && !applying
                && storage == Save(cameras, active)
      ensures active == old(active)
    {
      var st := JsArray.ReadAt(cameras, index);
      if st.None? {
        return;
      }
      var s := st.value;
      homeMode := false;
      applying := true;
      SetCameraMode(if s.mode != "" then s.mode else Perspective);
      SetCameraPose(s.pos, s.target);
      applying := false;
      SaveCameraStates();
    }

    /** A slot button: leaves home mode, fills the slot if empty, makes it active and applies it. */
    method SelectSlot(i: nat)
      requires Valid()
      modifies this
      ensures Valid()
      ensures active == i && !homeMode
      ensures JsArray.ReadAt(old(cameras), i).Some? ==> cameras == old(cameras)
      ensures JsArray.ReadAt(cameras, i).Some?
      ensures pos == JsArray.ReadAt(cameras, i).value.pos && target == JsArray.ReadAt(cameras, i).value.target
    {
      homeMode := false;
      EnsureCameraState(i);
      active := i;
      ApplyCameraState(i);
    }

    /**
     * `applyCameraInputs`: the pose changes only when all six parsed coordinates are finite;
     * the active slot then follows the view.
     */
    method ApplyCameraInputs(px: JsNum, py: JsNum, pz: JsNum, tx: JsNum, ty: JsNum, tz: JsNum)
      requires Valid()
      modifies this
      ensures Valid()
      ensures !(px.Finite? && py.Finite? && pz.Finite? && tx.Finite? && ty.Finite? && tz.Finite?) ==> unchanged(this)
      ensures px.Finite? && py.Finite? && pz.Finite? && tx.Finite? && ty.Finite? && tz.Finite? ==>
                pos == Vec3(px.v, py.v, pz.v) && target == Vec3(tx.v, ty.v, tz.v)
                && (!old(homeMode) && !old(applying) && JsArray.ReadAt(old(cameras), old(active)).Some? ==>
                      cameras == JsArray.WriteAt(old(cameras), active, CurrentState()))
      ensures active == old(active) && homeMode == old(homeMode) && mode == old(mode)
    {
      if px.Finite? && py.Finite? && pz.Finite? && tx.Finite? && ty.Finite? && tz.Finite? {
        SetCameraPose(Vec3(px.v, py.v, pz.v), Vec3(tx.v, ty.v, tz.v));
        UpdateActiveCameraStateFromControls();
      }
    }
  }
}
