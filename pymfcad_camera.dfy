/**
 * Camera slots of the pymfcad viewer (`createCameraSystem`): saved camera states in
 * numbered slots, the active slot, the slot count, home mode, the dirty flag, the
 * projection mode, and their persistence in browser storage.
 */
module PymfcadCamera {
  import opened Wrappers
  import opened Numbers
  import JsArray

  /**
   * A saved camera state. Fields a stored state may lack are optional; an absent or empty
   * control type or mode is the empty string, which JavaScript treats as false.
   */
  datatype CameraState = CameraState(
    pos: Vec3, target: Vec3, roll: Option<real>, fov: Option<real>, controlType: string, mode: string)

  /** The live view: camera position, orbit target, roll and perspective field of view. */
  datatype View = View(pos: Vec3, target: Vec3, roll: real, fov: real)

  /** The storage entry as `JSON.parse` sees it; numbers that are not numbers are `None`. */
  datatype Stored =
    | Missing
    | Unparsable
    | Parsed(cameras: Option<seq<Option<CameraState>>>, slotCount: Option<real>, activeIndex: Option<real>)

  /** What a successful load installs. */
  datatype Loaded = Loaded(cameras: seq<Option<CameraState>>, slotCount: int, active: int, hasCameras: bool)

  const DefaultCount: int := 0
  const Perspective: string := "perspective"
  const Orthographic: string := "orthographic"
  const DirtyEps: real := 0.0001

  function Or(s: string, d: string): (r: string)
    ensures s != "" ==> r == s
    ensures s == "" ==> r == d
  {
    if s != "" then s else d
  }

  /**
   * `loadCameraStates` as a function of the stored entry: nothing for a missing, unparsable or
   * non-array entry. Otherwise the cameras are taken, a positive integer slot count is kept
   * (else the list length), an integer active index is clamped into the slots and any other
   * active index leaves the old one in place.
   */
  function Load(stored: Stored, oldActive: int): (r: Option<Loaded>)
    ensures !stored.Parsed? ==> r.None?
    ensures stored.Parsed? && stored.cameras.None? ==> r.None?
    ensures stored.Parsed? && stored.cameras.Some? ==>
              r.Some?
              && r.value.cameras == stored.cameras.value
              && r.value.hasCameras == (|stored.cameras.value| > 0)
              && r.value.slotCount >= 0
              && (PositiveInt(stored.slotCount) ==> r.value.slotCount as real == stored.slotCount.value)
              && (!PositiveInt(stored.slotCount) ==> r.value.slotCount == |stored.cameras.value|)
              && (IntegerValue(stored.activeIndex) ==> 0 <= r.value.active <= Max(r.value.slotCount - 1, 0))
              && (IntegerValue(stored.activeIndex) && 0.0 <= stored.activeIndex.value <= (r.value.slotCount - 1) as real ==>
                    r.value.active as real == stored.activeIndex.value)
              && (IntegerValue(stored.activeIndex) && stored.activeIndex.value < 0.0 ==> r.value.active == 0)
              && (IntegerValue(stored.activeIndex) && stored.activeIndex.value > Max(r.value.slotCount - 1, 0) as real ==>
                    r.value.active == Max(r.value.slotCount - 1, 0))
              && (!IntegerValue(stored.activeIndex) ==> r.value.active == oldActive)
  {
    if !stored.Parsed? || stored.cameras.None? then None
    else
      var cams := stored.cameras.value;
      var count := if PositiveInt(stored.slotCount) then stored.slotCount.value.Floor else Max(|cams|, DefaultCount);
      var active := if IntegerValue(stored.activeIndex)
                    then Min(Max(stored.activeIndex.value.Floor, 0), Max(count - 1, 0))
                    else oldActive;
      Some(Loaded(cams, count, active, |cams| > 0))
  }

  predicate IntegerValue(x: Option<real>) { x.Some? && IsIntegral(x.value) }
  predicate PositiveInt(x: Option<real>) { IntegerValue(x) && x.value > 0.0 }

  /** `saveCameraStates` followed by `JSON.parse`: the stored entry holds the three values. */
  function Save(cameras: seq<Option<CameraState>>, slotCount: int, active: int): (s: Stored)
    ensures s.Parsed? && s.cameras == Some(cameras)
  {
    Parsed(Some(cameras), Some(slotCount as real), Some(active as real))
  }

  /**
   * Saving and loading back restores every slot, the slot count and an in-range active
   * index (an empty slot list stored with count 0 comes back with count 0 too).
   */
  lemma SaveLoadRoundTrip(cameras: seq<Option<CameraState>>, slotCount: int, active: int, anyActive: int)
    requires slotCount > 0 || (slotCount == 0 && |cameras| == 0)
    requires 0 <= active <= Max(slotCount - 1, 0)
    ensures Load(Save(cameras, slotCount, active), anyActive) == Some(Loaded(cameras, slotCount, active, |cameras| > 0))
  {
    assert (slotCount as real).Floor == slotCount;
    assert (active as real).Floor == active;
  }

  /** `clampFov`: the default for a non-finite value, otherwise the value clamped into [5, 120]. */
  function ClampFov(value: JsNum, defaultFov: real): (r: real)
    ensures !value.Finite? ==> r == defaultFov
    ensures value.Finite? ==> 5.0 <= r <= 120.0
    ensures value.Finite? && 5.0 <= value.v <= 120.0 ==> r == value.v
  {
    if !value.Finite? then defaultFov else MinR(120.0, MaxR(5.0, value.v))
  }

  /**
   * `clampFov(Number.isFinite(saved) ? saved : defaultFov)`: a saved field of view, or the
   * default one in its place, is clamped into [5, 120].
   */
  function SavedFov(saved: Option<real>, defaultFov: real): (r: real)
    ensures 5.0 <= r <= 120.0
    ensures saved.Some? ==> r == ClampFov(Finite(saved.value), defaultFov)
    ensures saved.None? ==> r == ClampFov(Finite(defaultFov), defaultFov)
    ensures saved.None? && 5.0 <= defaultFov <= 120.0 ==> r == defaultFov
  {
    ClampFov(Finite(if saved.Some? then saved.value else defaultFov), defaultFov)
  }

  /** `|a − b| > 1e-4` */
  predicate Differs(a: real, b: real) { AbsR(a - b) > DirtyEps }

  /**
   * `isCameraDirty` without an external provider: false when the active slot is empty;
   * otherwise true iff a coordinate, the roll or the field of view moved by more than 1e-4,
   * or the control type or mode differ once their defaults are filled in.
   */
  function IsDirty(saved: Option<CameraState>, current: CameraState, perspectiveFov: real, defaultControlType: string): (d: bool)
    ensures saved.None? ==> !d
  {
    if saved.None? then false
    else
      var s := saved.value;
      var savedRoll := if s.roll.Some? then s.roll.value else 0.0;
      var savedFov := if s.fov.Some? then s.fov.value else perspectiveFov;
      var curRoll := if current.roll.Some? then current.roll.value else 0.0;
      var curFov := if current.fov.Some? && current.fov.value != 0.0 then current.fov.value else perspectiveFov;
      Differs(current.pos.x, s.pos.x) || Differs(current.pos.y, s.pos.y) || Differs(current.pos.z, s.pos.z)
      || Differs(current.target.x, s.target.x) || Differs(current.target.y, s.target.y)
      || Differs(current.target.z, s.target.z)
      || Differs(curRoll, savedRoll) || Differs(curFov, savedFov)
      || Or(current.controlType, defaultControlType) != Or(s.controlType, defaultControlType)
      || Or(s.mode, Perspective) != Or(current.mode, Perspective)
  }

  /** A state just captured from the view is not dirty against itself. */
  lemma NotDirtyAfterCommit(current: CameraState, perspectiveFov: real, defaultControlType: string)
    requires current.fov.Some? && current.fov.value != 0.0 && current.roll.Some?
    ensures !IsDirty(Some(current), current, perspectiveFov, defaultControlType)
  {
  }

  /** `roll ?? 0` */
  function RollOf(c: CameraState): real { if c.roll.Some? then c.roll.value else 0.0 }

  /**
   * Moving any coordinate, the roll or the field of view by more than 1e-4, or changing
   * the control type or mode, makes the view dirty; an unset roll counts as 0 and an unset
   * or zero field of view as the perspective camera's.
   */
  lemma DirtyWhenMoved(saved: CameraState, current: CameraState, perspectiveFov: real, defaultControlType: string)
    requires Differs(current.pos.x, saved.pos.x) || Differs(current.pos.y, saved.pos.y)
             || Differs(current.pos.z, saved.pos.z) || Differs(current.target.x, saved.target.x)
             || Differs(current.target.y, saved.target.y) || Differs(current.target.z, saved.target.z)
             || Differs(RollOf(current), RollOf(saved))
             || Differs(if current.fov.Some? && current.fov.value != 0.0 then current.fov.value else perspectiveFov,
                        if saved.fov.Some? then saved.fov.value else perspectiveFov)
             || Or(current.controlType, defaultControlType) != Or(saved.controlType, defaultControlType)
             || Or(current.mode, Perspective) != Or(saved.mode, Perspective)
    ensures IsDirty(Some(saved), current, perspectiveFov, defaultControlType)
  {
  }

  /**
   * Conversely, when every coordinate, the roll and the field of view are within 1e-4 of
   * the saved ones and the defaulted control type and mode agree, the view is clean.
   */
  lemma CleanWhenClose(saved: CameraState, current: CameraState, perspectiveFov: real, defaultControlType: string)
    requires !Differs(current.pos.x, saved.pos.x) && !Differs(current.pos.y, saved.pos.y)
             && !Differs(current.pos.z, saved.pos.z) && !Differs(current.target.x, saved.target.x)
             && !Differs(current.target.y, saved.target.y) && !Differs(current.target.z, saved.target.z)
             && !Differs(RollOf(current), RollOf(saved))
             && !Differs(if current.fov.Some? && current.fov.value != 0.0 then current.fov.value else perspectiveFov,
                         if saved.fov.Some? then saved.fov.value else perspectiveFov)
             && Or(current.controlType, defaultControlType) == Or(saved.controlType, defaultControlType)
             && Or(current.mode, Perspective) == Or(saved.mode, Perspective)
    ensures !IsDirty(Some(saved), current, perspectiveFov, defaultControlType)
  {
  }

  class CameraSystem {
    var cameras: seq<Option<CameraState>>
    var active: int
    var slotCount: int
    var homeMode: bool
    var dirty: bool
    var mode: string
    var controlType: string
    var defaultControlType: string
    var allowRoll: bool
    var view: View
    var defaultFov: real
    var storage: Stored

    predicate Valid()
      reads this
    {
      active >= 0 && slotCount >= 0
    }

    constructor (initialView: View, defaultFov: real, stored: Stored)
      ensures Valid()
      ensures cameras == [] && active == 0 && slotCount == DefaultCount
      ensures !homeMode && !dirty && mode == Perspective && controlType == "orbit"
      ensures view == initialView && storage == stored
    {
      cameras := [];
      active := 0;
      slotCount := DefaultCount;
      homeMode := false;
      dirty := false;
      mode := Perspective;
      controlType := "orbit";
      defaultControlType := "orbit";
      allowRoll := true;
      view := initialView;
      this.defaultFov := defaultFov;
      storage := stored;
    }

    /** `getCurrentCameraState` */
    function CurrentState(): (s: CameraState)
      reads this
      ensures s.pos == view.pos && s.target == view.target && s.fov == Some(view.fov)
      ensures s.roll == Some(if allowRoll then view.roll else 0.0)
      ensures s.controlType == controlType && s.mode == mode
    {
      CameraState(view.pos, view.target, Some(if allowRoll then view.roll else 0.0), Some(view.fov), controlType, mode)
    }

    method SaveCameraStates()
      modifies this
      ensures storage == Save(cameras, slotCount, active)
      ensures cameras == old(cameras) && active == old(active) && slotCount == old(slotCount)
      ensures homeMode == old(homeMode) && dirty == old(dirty) && mode == old(mode)
      ensures controlType == old(controlType) && view == old(view)
      ensures defaultControlType == old(defaultControlType) && allowRoll == old(allowRoll) && defaultFov == old(defaultFov)
    {
      storage := Save(cameras, slotCount, active);
    }

    /** `loadCameraStates`: installs what `Load` finds in storage and reports whether any camera was saved. */
    method LoadCameraStates() returns (hasSaved: bool)
      requires Valid()
      modifies this
      ensures Valid()
      ensures Load(old(storage), old(active)).None? ==> !hasSaved && unchanged(this)
      ensures Load(old(storage), old(active)).Some? ==>
                var l := Load(old(storage), old(active)).value;
                cameras == l.cameras && slotCount == l.slotCount && active == l.active && hasSaved == l.hasCameras
      ensures storage == old(storage) && homeMode == old(homeMode) && dirty == old(dirty) && mode == old(mode)
      ensures controlType == old(controlType) && view == old(view)
      ensures defaultControlType == old(defaultControlType) && allowRoll == old(allowRoll) && defaultFov == old(defaultFov)
    {
      var r := Load(storage, active);
      if r.None? {
        return false;
      }
      cameras := r.value.cameras;
      slotCount := r.value.slotCount;
      active := r.value.active;
      hasSaved := r.value.hasCameras;
    }

    /** `initCameraStates`: loads, always enters home mode, and starts empty when nothing was saved. */
    method InitCameraStates() returns (hasSaved: bool)
      requires Valid()
      modifies this
      ensures Valid()
      ensures homeMode && controlType == defaultControlType
      ensures !hasSaved ==> slotCount == DefaultCount && cameras == [] && active == 0
      ensures hasSaved ==> Load(old(storage), old(active)).Some? && cameras == Load(old(storage), old(active)).value.cameras
                           && |cameras| > 0
      ensures dirty == old(dirty) && mode == old(mode) && view == old(view) && storage == old(storage)
    {
      hasSaved := LoadCameraStates();
      homeMode := true;
      if !hasSaved {
        slotCount := DefaultCount;
        cameras := [];
        active := 0;
      }
      controlType := defaultControlType;
    }

    /** `commitActiveCameraState`: nothing for an empty slot; otherwise the slot takes the current view and dirty clears. */
    method CommitActiveCameraState()
      requires Valid()
      modifies this
      ensures Valid()
      ensures JsArray.ReadAt(old(cameras), old(active)).None? ==> unchanged(this)
      ensures JsArray.ReadAt(old(cameras), old(active)).Some? ==>
                cameras == JsArray.WriteAt(old(cameras), active, old(CurrentState()))
                && !dirty && storage == Save(cameras, slotCount, active)
      ensures active == old(active) && slotCount == old(slotCount) && homeMode == old(homeMode)
      ensures mode == old(mode) && view == old(view) && controlType == old(controlType)
    {
      if JsArray.ReadAt(cameras, active).None? {
        return;
      }
      cameras := JsArray.WriteAt(cameras, active, CurrentState());
      SaveCameraStates();
      dirty := false;
    }

    /** `updateActiveCameraStateFromControls` without a dirty-state provider: recomputes the dirty flag. */
    method UpdateActiveCameraStateFromControls()
      requires Valid()
      modifies this
      ensures Valid()
      ensures (old(homeMode) || JsArray.ReadAt(cameras, active).None?) ==> unchanged(this)
      ensures !old(homeMode) && JsArray.ReadAt(cameras, active).Some? ==>
                dirty == IsDirty(JsArray.ReadAt(cameras, active), CurrentState(), view.fov, defaultControlType)
      ensures cameras == old(cameras) && active == old(active) && view == old(view) && storage == old(storage)
      ensures homeMode == old(homeMode) && mode == old(mode) && controlType == old(controlType)
    {
      if homeMode {
        return;
      }
      if JsArray.ReadAt(cameras, active).None? {
        return;
      }
      dirty := IsDirty(JsArray.ReadAt(cameras, active), CurrentState(), view.fov, defaultControlType);
    }

    /** `setCameraMode`: nothing for the current mode; switching to perspective restores the slot's (or the default) field of view. */
    method SetCameraMode(next: string)
      requires Valid()
      modifies this
      ensures Valid()
      ensures next == old(mode) ==> unchanged(this)
      ensures mode == next
      ensures next != old(mode) && next != Orthographic ==>
                view.fov == SavedFov(SlotFov(cameras, active), defaultFov)
      ensures next == Orthographic ==> view.fov == old(view.fov)
      ensures view.pos == old(view.pos) && view.target == old(view.target) && view.roll == old(view.roll)
      ensures cameras == old(cameras) && active == old(active) && slotCount == old(slotCount)
      ensures homeMode == old(homeMode) && dirty == old(dirty) && controlType == old(controlType)
      ensures storage == old(storage) && defaultFov == old(defaultFov) && allowRoll == old(allowRoll)
      ensures defaultControlType == old(defaultControlType)
    {
      if next == mode {
        return;
      }
      mode := next;
      if mode != Orthographic {
        view := view.(fov := SavedFov(SlotFov(cameras, active), defaultFov));
      }
    }

    /**
     * `applyCameraState(index)`: nothing for an empty slot. Otherwise the slot's control type
     * and mode are adopted, home mode ends, the view moves to the saved pose (the field of
     * view only in perspective mode), dirty clears and the slots are saved.
     */
    method ApplyCameraState(index: int)
      requires Valid()
      modifies this
      ensures Valid()
      ensures JsArray.ReadAt(old(cameras), index).None? ==> unchanged(this)
      ensures JsArray.ReadAt(old(cameras), index).Some? ==>
                var s := JsArray.ReadAt(old(cameras), index).value;
                controlType == Or(s.controlType, old(defaultControlType))
                && !homeMode && !dirty
                && mode == Or(s.mode, Perspective)
                && view.pos == s.pos && view.target == s.target
                && view.roll == (if allowRoll && s.roll.Some? then s.roll.value else 0.0)
                && (mode == Perspective ==>
                     view.fov == SavedFov(s.fov, defaultFov))
                && storage == Save(cameras, slotCount, active)
      ensures cameras == old(cameras) && active == old(active) && slotCount == old(slotCount)
    {
      var st := JsArray.ReadAt(cameras, index);
      if st.None? {
        return;
      }
      var s := st.value;
      controlType := Or(s.controlType, defaultControlType);
      homeMode := false;
      SetCameraMode(Or(s.mode, Perspective));
      view := view.(pos := s.pos, target := s.target, roll := if allowRoll && s.roll.Some? then s.roll.value else 0.0);
      if Or(s.mode, Perspective) == Perspective {
        view := view.(fov := SavedFov(s.fov, defaultFov));
      }
      dirty := false;
      SaveCameraStates();
    }

    /** `ensureCameraState(index)`: an empty slot gets the current view; a filled slot is kept. */
    method EnsureCameraState(index: nat)
      modifies this
      ensures JsArray.ReadAt(old(cameras), index).Some? ==> cameras == old(cameras)
      ensures JsArray.ReadAt(old(cameras), index).None? ==> cameras == JsArray.WriteAt(old(cameras), index, old(CurrentState()))
      ensures JsArray.ReadAt(cameras, index).Some?
      ensures active == old(active) && slotCount == old(slotCount) && homeMode == old(homeMode) && dirty == old(dirty)
      ensures mode == old(mode) && view == old(view) && controlType == old(controlType) && storage == old(storage)
      ensures defaultControlType == old(defaultControlType) && allowRoll == old(allowRoll) && defaultFov == old(defaultFov)
    {
      if JsArray.ReadAt(cameras, index).None? {
        cameras := JsArray.WriteAt(cameras, index, CurrentState());
      }
    }

    /**
     * `addCameraSlot`: the current view is stored at index `slotCount`, the count grows by
     * one, the new slot becomes active, home mode ends and dirty clears.
     */
    method AddCameraSlot()
      requires Valid()
      modifies this
      ensures Valid()
      ensures controlType == Or(old(controlType), defaultControlType)
      ensures cameras == JsArray.WriteAt(old(cameras), old(slotCount), CurrentState())
      ensures slotCount == old(slotCount) + 1 && active == old(slotCount)
      ensures !homeMode && !dirty
      ensures storage == Save(cameras, slotCount, active)
      ensures view == old(view) && mode == old(mode)
    {
      var next := slotCount;
      controlType := Or(controlType, defaultControlType);
      cameras := JsArray.WriteAt(cameras, next, CurrentState());
      slotCount := slotCount + 1;
      active := next;
      homeMode := false;
      dirty := false;
      SaveCameraStates();
    }

    /**
     * `removeActiveCameraSlot`: nothing with one slot or fewer. Otherwise the active slot is
     * spliced out, the count drops by one (never below one), the active index is pulled back
     * into the slots, an empty slot there is filled from the view, and that slot is applied.
     */
    method RemoveActiveCameraSlot()
      requires Valid()
      modifies this
      ensures Valid()
      ensures old(slotCount) <= 1 ==> unchanged(this)
      ensures old(slotCount) > 1 ==>
                slotCount == old(slotCount) - 1
                && active == (if old(active) >= slotCount then slotCount - 1 else old(active))
                && 0 <= active < slotCount
                && |cameras| == Max(|JsArray.RemoveAt(old(cameras), old(active))|, active + 1)
                && (forall j :: 0 <= j < |JsArray.RemoveAt(old(cameras), old(active))| && j != active ==>
                      cameras[j] == JsArray.RemoveAt(old(cameras), old(active))[j])
                && (forall j :: |JsArray.RemoveAt(old(cameras), old(active))| <= j < |cameras| && j != active ==>
                      cameras[j] == None)
                && JsArray.ReadAt(cameras, active).Some?
                && !homeMode && !dirty
                && view.pos == JsArray.ReadAt(cameras, active).value.pos
                && view.target == JsArray.ReadAt(cameras, active).value.target
                && storage == Save(cameras, slotCount, active)
    {
      if slotCount <= 1 {
        return;
      }
      var removeIndex := active;
      cameras := JsArray.RemoveAt(cameras, removeIndex);
      slotCount := Max(1, slotCount - 1);
      if active >= slotCount {
        active := slotCount - 1;
      }
      homeMode := false;
      EnsureCameraState(active);
      ApplyCameraState(active);
    }

    /** The Remove button is enabled outside home mode, on a filled slot, with more than one slot. */
    function RemoveEnabled(): (enabled: bool)
      reads this
      ensures enabled ==> slotCount > 1 && JsArray.ReadAt(cameras, active).Some?
      ensures enabled <==> !homeMode && JsArray.ReadAt(cameras, active).Some? && slotCount > 1
    {
      !homeMode && JsArray.ReadAt(cameras, active).Some? && slotCount > 1
    }

    /**
     * The mode button: toggles between orthographic and perspective starting from the active
     * slot's mode (or the current one), and records the new mode on the active slot if it exists.
     */
    method ToggleMode()
      requires Valid()
      modifies this
      ensures Valid()
      ensures mode == Toggled(ModeShown(old(cameras), old(active), old(mode)))
      ensures JsArray.ReadAt(old(cameras), active).Some? ==>
                cameras == JsArray.WriteAt(old(cameras), active, JsArray.ReadAt(old(cameras), active).value.(mode := mode))
                && storage == Save(cameras, slotCount, active)
      ensures JsArray.ReadAt(old(cameras), active).None? ==> cameras == old(cameras)
      ensures active == old(active) && slotCount == old(slotCount)
    {
      var next := Toggled(ModeShown(cameras, active, mode));
      SetCameraMode(next);
      var st := JsArray.ReadAt(cameras, active);
      if st.Some? {
        cameras := JsArray.WriteAt(cameras, active, st.value.(mode := next));
        SaveCameraStates();
      }
    }
  }

  /** The field of view saved on a slot (`None` when the slot or its finite field is missing). */
  function SlotFov(cameras: seq<Option<CameraState>>, index: int): Option<real>
  {
    var st := JsArray.ReadAt(cameras, index);
    if st.Some? then st.value.fov else None
  }

  /** `camerasState[activeCameraIndex]?.mode || cameraMode` */
  function ModeShown(cameras: seq<Option<CameraState>>, index: int, mode: string): string
  {
    var st := JsArray.ReadAt(cameras, index);
    if st.Some? && st.value.mode != "" then st.value.mode else mode
  }

  /** The mode the button switches to. */
  function Toggled(current: string): (next: string)
    ensures next == Orthographic || next == Perspective
    ensures current == Orthographic <==> next == Perspective
  {
    if current == Orthographic then Perspective else Orthographic
  }

  /** Toggling twice from a known mode returns to it. */
  lemma ToggleTwice(m: string)
    requires m == Orthographic || m == Perspective
    ensures Toggled(Toggled(m)) == m
  {
  }
}
