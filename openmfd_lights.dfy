/**
 * The light system of the openmfd viewer: an ambient light and directional lights kept
 * beside a parallel list of helpers, the active light, the one-time default light, the
 * per-light editor's input gating and the dialog that shows or hides the helpers.
 */
module OpenmfdLights {
  import opened Wrappers
  import opened Numbers
  import JsArray

  datatype Light = Light(color: string, intensity: real, position: Vec3, target: Vec3)

  /** A light helper: only its visibility is tracked. */
  datatype Helper = Helper(visible: bool)

  /** The `options` of `addDirectionalLight`. */
  datatype LightOptions = LightOptions(color: Option<string>, intensity: Option<real>, offset: Option<Vec3>, position: Option<Vec3>)

  const White: string := "#ffffff"
  const DefaultOffset: Vec3 := Vec3(10.0, 10.0, 10.0)

  /** `{ offset: (10, 10, 10) }`, used by the Add button and the default light. */
  function OffsetOptions(): LightOptions
  {
    LightOptions(None, None, Some(DefaultOffset), None)
  }

  /** The light `addDirectionalLight(opts)` creates around the model centre. */
  function NewLight(opts: LightOptions, center: Vec3): (l: Light)
    ensures l.target == center
    ensures opts.position.Some? ==> l.position == opts.position.value
    ensures opts.position.None? && opts.offset.Some? ==> l.position == center.Plus(opts.offset.value)
    ensures opts.position.None? && opts.offset.None? ==> l.position == center.Plus(DefaultOffset)
    ensures l.color == if opts.color.Some? then opts.color.value else White
    ensures l.intensity == if opts.intensity.Some? then opts.intensity.value else 1.0
  {
    var offset := if opts.offset.Some? then opts.offset.value else DefaultOffset;
    Light(
      if opts.color.Some? then opts.color.value else White,
      if opts.intensity.Some? then opts.intensity.value else 1.0,
      if opts.position.Some? then opts.position.value else center.Plus(offset),
      center)
  }

  /**
   * The per-light editor's update: a finite intensity is applied clamped to at least 0, the
   * position moves to centre + offset only when all three offsets are finite, and the colour
   * and target are always refreshed.
   */
  function EditedLight(l: Light, intensity: JsNum, dx: JsNum, dy: JsNum, dz: JsNum, color: string, center: Vec3): (r: Light)
    ensures intensity.Finite? ==> r.intensity == MaxR(0.0, intensity.v) && r.intensity >= 0.0
    ensures !intensity.Finite? ==> r.intensity == l.intensity
    ensures dx.Finite? && dy.Finite? && dz.Finite? ==> r.position == center.Plus(Vec3(dx.v, dy.v, dz.v))
    ensures !(dx.Finite? && dy.Finite? && dz.Finite?) ==> r.position == l.position
    ensures r.color == color && r.target == center
  {
    Light(
      color,
      if intensity.Finite? then MaxR(0.0, intensity.v) else l.intensity,
      if dx.Finite? && dy.Finite? && dz.Finite? then Vec3(center.x + dx.v, center.y + dy.v, center.z + dz.v) else l.position,
      center)
  }

  /** Applying the same editor inputs twice gives the same light as applying them once. */
  lemma EditedLightIdempotent(l: Light, intensity: JsNum, dx: JsNum, dy: JsNum, dz: JsNum, color: string, center: Vec3)
    ensures EditedLight(EditedLight(l, intensity, dx, dy, dz, color, center), intensity, dx, dy, dz, color, center)
            == EditedLight(l, intensity, dx, dy, dz, color, center)
  {
  }

  /** Removing the light just added (the active one after the add) restores the list. */
  lemma RemoveAddedLight(lights: seq<Light>, l: Light)
    ensures JsArray.RemoveAt(lights + [l], |lights|) == lights
  {
    JsArray.RemoveLastOfPrefix(lights + [l], |lights|);
    assert (lights + [l])[..|lights| + 1] == lights + [l];
    assert (lights + [l])[..|lights|] == lights;
  }

  class LightSystem {
    var lights: seq<Light>
    var helpers: seq<Helper>
    var active: int
    var defaultLightInitialized: bool
    var helpersVisible: bool
    var ambientColor: string
    var ambientIntensity: real
    var hasDialog: bool
    var dialogOpen: bool

    predicate Valid()
      reads this
    {
      |helpers| == |lights|
      && (if |lights| == 0 then active == 0 else 0 <= active < |lights|)
    }

    constructor (hasDialog: bool)
      ensures Valid()
      ensures lights == [] && active == 0 && !defaultLightInitialized && !helpersVisible
      ensures ambientColor == White && ambientIntensity == 1.0 && this.hasDialog == hasDialog && !dialogOpen
    {
      lights := [];
      helpers := [];
      active := 0;
      defaultLightInitialized := false;
      helpersVisible := false;
      ambientColor := White;
      ambientIntensity := 1.0;
      this.hasDialog := hasDialog;
      dialogOpen := false;
    }

    /** `addDirectionalLight`: one light and one helper (shown iff helpers are shown) appended; the new light becomes active. */
    method AddDirectionalLight(opts: LightOptions, center: Vec3)
      requires Valid()
      modifies this
      ensures Valid()
      ensures lights == old(lights) + [NewLight(opts, center)]
      ensures helpers == old(helpers) + [Helper(helpersVisible)]
      ensures active == |lights| - 1
      ensures defaultLightInitialized == old(defaultLightInitialized) && helpersVisible == old(helpersVisible)
      ensures ambientColor == old(ambientColor) && ambientIntensity == old(ambientIntensity)
      ensures hasDialog == old(hasDialog) && dialogOpen == old(dialogOpen)
    {
      lights := lights + [NewLight(opts, center)];
      helpers := helpers + [Helper(helpersVisible)];
      active := |lights| - 1;
    }

    /**
     * `removeDirectionalLight(index)`: both lists lose the same element; the active index is 0
     * for an empty list, pulled back to the last light when past the end, otherwise kept.
     */
    method RemoveDirectionalLight(index: int)
      requires Valid()
      modifies this
      ensures Valid()
      ensures lights == JsArray.RemoveAt(old(lights), index)
      ensures helpers == JsArray.RemoveAt(old(helpers), index)
      ensures |lights| == 0 ==> active == 0
      ensures |lights| > 0 && old(active) >= |lights| ==> active == |lights| - 1
      ensures |lights| > 0 && old(active) < |lights| ==> active == old(active)
      ensures defaultLightInitialized == old(defaultLightInitialized) && helpersVisible == old(helpersVisible)
      ensures ambientColor == old(ambientColor) && ambientIntensity == old(ambientIntensity)
      ensures hasDialog == old(hasDialog) && dialogOpen == old(dialogOpen)
    {
      lights := JsArray.RemoveAt(lights, index);
      helpers := JsArray.RemoveAt(helpers, index);
      if |lights| == 0 {
        active := 0;
        return;
      }
      if active >= |lights| {
        active := |lights| - 1;
      }
    }

    /** `ensureDefaultLight`: adds the default light on the first call only. */
    method EnsureDefaultLight(center: Vec3)
      requires Valid()
      modifies this
      ensures Valid()
      ensures defaultLightInitialized
      ensures old(defaultLightInitialized) ==> unchanged(this)
      ensures !old(defaultLightInitialized) ==> lights == old(lights) + [NewLight(OffsetOptions(), center)]
    {
      if defaultLightInitialized {
        return;
      }
      defaultLightInitialized := true;
      AddDirectionalLight(OffsetOptions(), center);
    }

    /** The editor's Remove button: does nothing while only one light (or none) is left. */
    method ClickRemove()
      requires Valid()
      modifies this
      ensures Valid()
      ensures |old(lights)| <= 1 ==> unchanged(this)
      ensures |old(lights)| > 1 ==> lights == JsArray.RemoveAt(old(lights), old(active)) && |lights| >= 1
    {
      if |lights| <= 1 {
        return;
      }
      RemoveDirectionalLight(active);
    }

    /** The editor's input handler (`updateLight`), acting on the active light when there is one. */
    method UpdateLight(intensity: JsNum, dx: JsNum, dy: JsNum, dz: JsNum, color: string, center: Vec3)
      requires Valid()
      modifies this
      ensures Valid()
      ensures |old(lights)| == 0 ==> unchanged(this)
      ensures |old(lights)| > 0 ==>
                lights == old(lights)[old(active) := EditedLight(old(lights)[old(active)], intensity, dx, dy, dz, color, center)]
      ensures helpers == old(helpers) && active == old(active)
      ensures ambientColor == old(ambientColor) && ambientIntensity == old(ambientIntensity)
    {
      if |lights| == 0 {
        return;
      }
      lights := lights[active := EditedLight(lights[active], intensity, dx, dy, dz, color, center)];
    }

    /** The ambient intensity input: a finite value is applied, clamped to at least 0. */
    method SetAmbientIntensity(x: JsNum)
      modifies this
      ensures x.Finite? ==> ambientIntensity == MaxR(0.0, x.v) && ambientIntensity >= 0.0
      ensures !x.Finite? ==> ambientIntensity == old(ambientIntensity)
      ensures lights == old(lights) && helpers == old(helpers) && active == old(active)
      ensures ambientColor == old(ambientColor)
    {
      if x.Finite? {
        ambientIntensity := MaxR(0.0, x.v);
      }
    }

    /** `setDialogOpen`: without a dialog nothing happens; otherwise every helper's visibility follows the flag. */
    method SetDialogOpen(isOpen: bool)
      requires Valid()
      modifies this
      ensures Valid()
      ensures !hasDialog ==> unchanged(this)
      ensures hasDialog ==>
                dialogOpen == isOpen && helpersVisible == isOpen
                && |helpers| == |old(helpers)|
                && (forall i :: 0 <= i < |helpers| ==> helpers[i].visible == isOpen)
      ensures lights == old(lights) && active == old(active)
    {
      if !hasDialog {
        return;
      }
      dialogOpen := isOpen;
      helpersVisible := isOpen;
      var i := 0;
      while i < |helpers|
        invariant 0 <= i <= |helpers| == |old(helpers)|
        invariant Valid() && lights == old(lights) && active == old(active) && hasDialog
        invariant dialogOpen == isOpen && helpersVisible == isOpen
        invariant forall j :: 0 <= j < i ==> helpers[j].visible == isOpen
      {
        helpers := helpers[i := Helper(isOpen)];
        i := i + 1;
      }
    }
  }
}
