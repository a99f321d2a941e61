/**
 * The light system of the pymfcad viewer (`createLightSystem`): an ambient light and a
 * list of directional/spot lights kept beside a parallel list of helpers, an active
 * index, the structure-edit guard, the state apply/reset rebuild and the numeric
 * helpers used by the light dialog.
 */
module PymfcadLights {
  import opened Wrappers
  import opened Numbers
  import opened Text
  import JsArray

  datatype LightKind = Directional | Spot

  /** A three.js light as far as the light list is concerned. */
  datatype Light = Light(kind: LightKind, color: string, intensity: real, position: Vec3, target: Vec3, range: real)

  /** The helper drawn for a light. */
  datatype Helper = Helper(light: Light)

  /** The `options` object of `addDirectionalLight`; absent fields are `None` or `NaN`. */
  datatype LightOptions = LightOptions(
    kind: Option<string>, color: Option<string>, intensity: Option<real>,
    position: Option<Vec3>, target: Option<Vec3>, distance: JsNum, range: JsNum)

  /** JavaScript truthiness of an optional string: absent and empty are both false. */
  function OrDefault(s: Option<string>, d: string): (r: string)
    ensures s.Some? && s.value != "" ==> r == s.value
    ensures (s.None? || s.value == "") ==> r == d
  {
    if s.Some? && s.value != "" then s.value else d
  }

  const White: string := "#ffffff"
  const DefaultRange: real := 30.0
  const DefaultLightIntensity: real := 1.5

  /** The options `{ intensity: 1.5 }` used for the default light. */
  function DefaultLightOptions(): LightOptions
  {
    LightOptions(None, None, Some(DefaultLightIntensity), None, None, NaN, NaN)
  }

  /** The model centre when there is one, else the origin (`getModelCenterModel() || new Vector3(0, 0, 0)`). */
  function CenterOrOrigin(center: Option<Vec3>): Vec3
  {
    if center.Some? then center.value else Vec3(0.0, 0.0, 0.0)
  }

  /** The light `addDirectionalLight(opts)` creates when the model centre is `center` (or absent). */
  function NewLight(opts: LightOptions, center: Option<Vec3>): (l: Light)
    ensures l.kind == Spot <==> opts.kind == Some("spot")
    ensures l.intensity == (if opts.intensity.Some? then opts.intensity.value else 1.0)
    ensures opts.position.Some? ==> l.position == opts.position.value
    ensures opts.distance.Finite? ==> l.range == opts.distance.v
    ensures !opts.distance.Finite? && opts.range.Finite? ==> l.range == opts.range.v
    ensures !opts.distance.Finite? && !opts.range.Finite? ==> l.range == DefaultRange
    ensures l.color == (if opts.color.Some? then opts.color.value else White)
    ensures opts.position.None? ==> l.position == CenterOrOrigin(center).Plus(Vec3(10.0, 10.0, 10.0))
    ensures l.target == (if opts.target.Some? then opts.target.value else CenterOrOrigin(center))
  {
    var mc := CenterOrOrigin(center);
    var kind := if OrDefault(opts.kind, "directional") == "spot" then Spot else Directional;
    Light(
      kind,
      if opts.color.Some? then opts.color.value else White,
      if opts.intensity.Some? then opts.intensity.value else 1.0,
      if opts.position.Some? then opts.position.value else mc.Plus(Vec3(10.0, 10.0, 10.0)),
      if opts.target.Some? then opts.target.value else mc,
      if opts.distance.Finite? then opts.distance.v
      else if opts.range.Finite? then opts.range.v
      else DefaultRange)
  }

  /** One entry of a saved light state (`state.directional[i]`); a `null` entry has every field absent. */
  datatype Entry = Entry(
    kind: Option<string>, color: Option<string>, intensity: JsNum,
    position: Option<Vec3>, target: Option<Vec3>, distance: JsNum, range: JsNum,
    angle: JsNum, penumbra: JsNum, decay: JsNum)

  /** `state.ambient` when it is an object. */
  datatype Ambient = Ambient(color: Option<string>, intensity: JsNum)

  /** The argument of `applyLightState`/`normalizeLightState`; `directional` is `None` when it is not an array. */
  datatype LightState = NotObject | Obj(ambient: Option<Ambient>, directional: Option<seq<Entry>>)

  /** The list `applyLightState` rebuilds from: a non-array counts as empty. */
  function DirList(state: LightState): (list: seq<Entry>)
    ensures state.NotObject? || state.directional.None? ==> list == []
  {
    if state.Obj? && state.directional.Some? then state.directional.value else []
  }

  /** `state.ambient.color` is truthy. */
  predicate AmbientColorGiven(state: LightState)
  {
    state.Obj? && state.ambient.Some? && state.ambient.value.color.Some? && state.ambient.value.color.value != ""
  }

  /** `state.ambient.intensity` is a finite number. */
  predicate AmbientIntensityGiven(state: LightState)
  {
    state.Obj? && state.ambient.Some? && state.ambient.value.intensity.Finite?
  }

  /** The options `applyLightState` passes to `addDirectionalLight` for one entry. */
  function EntryOptions(e: Entry, mc: Vec3): (o: LightOptions)
    ensures o.intensity.Some?
    ensures o.position.Some? && o.target.Some?
  {
    LightOptions(
      Some(OrDefault(e.kind, "directional")),
      Some(if e.color.Some? && e.color.value != "" then e.color.value else White),
      Some(if e.intensity.Finite? then e.intensity.v else 1.0),
      Some(if e.position.Some? then e.position.value else mc.Plus(Vec3(10.0, 10.0, 10.0))),
      Some(if e.target.Some? then e.target.value else mc),
      if e.distance.Finite? then e.distance else NaN,
      if e.range.Finite? then e.range else NaN)
  }

  /** The lights rebuilt from a non-empty entry list, one per entry and in order. */
  function Rebuilt(list: seq<Entry>, mc: Vec3): (ls: seq<Light>)
    ensures |ls| == |list|
    ensures forall i :: 0 <= i < |list| ==> ls[i] == NewLight(EntryOptions(list[i], mc), Some(mc))
  {
    seq(|list|, i requires 0 <= i < |list| => NewLight(EntryOptions(list[i], mc), Some(mc)))
  }

  /** Rebuilding one more entry appends its light. */
  lemma RebuiltSnoc(list: seq<Entry>, i: nat, mc: Vec3)
    requires i < |list|
    ensures Rebuilt(list[..i + 1], mc) == Rebuilt(list[..i], mc) + [NewLight(EntryOptions(list[i], mc), Some(mc))]
  {
    var a := Rebuilt(list[..i + 1], mc);
    var b := Rebuilt(list[..i], mc) + [NewLight(EntryOptions(list[i], mc), Some(mc))];
    forall k | 0 <= k < |a| ensures a[k] == b[k] {
      assert list[..i + 1][k] == list[k];
    }
  }

  class LightSystem {
    var lights: seq<Light>
    var helpers: seq<Helper>
    var active: int
    var ambientColor: string
    var ambientIntensity: real
    var allowStructureEdit: bool
    var defaultLightInitialized: bool

    /** The lists are parallel and the active index points into them (0 when they are empty). */
    predicate Valid()
      reads this
    {
      |helpers| == |lights|
      && (forall i :: 0 <= i < |lights| ==> helpers[i].light == lights[i])
      && (if |lights| == 0 then active == 0 else 0 <= active < |lights|)
    }

    constructor ()
      ensures Valid()
      ensures lights == [] && active == 0
      ensures ambientColor == White && ambientIntensity == 1.0
      ensures allowStructureEdit && !defaultLightInitialized
    {
      lights := [];
      helpers := [];
      active := 0;
      ambientColor := White;
      ambientIntensity := 1.0;
      allowStructureEdit := true;
      defaultLightInitialized := false;
    }

    /** `addDirectionalLight`: one light and its helper appended; the new light becomes active. */
    method AddDirectionalLight(opts: LightOptions, center: Option<Vec3>)
      requires Valid()
      modifies this
      ensures Valid()
      ensures lights == old(lights) + [NewLight(opts, center)]
      ensures helpers == old(helpers) + [Helper(NewLight(opts, center))]
      ensures active == |lights| - 1
      ensures ambientColor == old(ambientColor) && ambientIntensity == old(ambientIntensity)
      ensures allowStructureEdit == old(allowStructureEdit)
      ensures defaultLightInitialized == old(defaultLightInitialized)
    {
      var light := NewLight(opts, center);
      lights := lights + [light];
      helpers := helpers + [Helper(light)];
      active := |lights| - 1;
    }

    /**
     * `removeDirectionalLight(index)`: both lists lose the same element; the active index
     * becomes 0 for an empty list, is pulled back to the last light when it ran past the
     * end, and is otherwise kept.
     */
    method RemoveDirectionalLight(index: int)
      requires Valid()
      modifies this
      ensures Valid()
      ensures lights == JsArray.RemoveAt(old(lights), index)
      ensures helpers == JsArray.RemoveAt(old(helpers), index)
      ensures |lights| == 0 ==> active == 0
      ensures |lights| > 0 && old(active) >= |lights| ==> active == |lights| - 1
      ensures |lights| > 0 && old(active) < |lights| ==> active == old(active)
      ensures ambientColor == old(ambientColor) && ambientIntensity == old(ambientIntensity)
      ensures allowStructureEdit == old(allowStructureEdit)
      ensures defaultLightInitialized == old(defaultLightInitialized)
    {
      var k := JsArray.SpliceStart(|lights|, index);
      lights := JsArray.RemoveAt(lights, index);
      helpers := JsArray.RemoveAt(helpers, index);
      assert forall i :: 0 <= i < |lights| ==> helpers[i].light == lights[i] by {
        forall i | 0 <= i < |lights| ensures helpers[i].light == lights[i] {
          if k < |old(lights)| {
            assert i < k ==> helpers[i] == old(helpers)[i] && lights[i] == old(lights)[i];
            assert i >= k ==> helpers[i] == old(helpers)[i + 1] && lights[i] == old(lights)[i + 1];
          }
        }
      }
      if |lights| == 0 {
        active := 0;
        return;
      }
      if active >= |lights| {
        active := |lights| - 1;
      }
    }

    /** `clearDirectionalLights`: removes every light, last first, and resets the active index. */
    method ClearDirectionalLights()
      requires Valid()
      modifies this
      ensures Valid()
      ensures lights == [] && helpers == [] && active == 0
      ensures ambientColor == old(ambientColor) && ambientIntensity == old(ambientIntensity)
      ensures allowStructureEdit == old(allowStructureEdit)
      ensures defaultLightInitialized == old(defaultLightInitialized)
    {
      var i := |lights| - 1;
      while i >= 0
        invariant -1 <= i < |old(lights)|
        invariant Valid()
        invariant lights == old(lights)[..i + 1] && helpers == old(helpers)[..i + 1]
        invariant ambientColor == old(ambientColor) && ambientIntensity == old(ambientIntensity)
        invariant allowStructureEdit == old(allowStructureEdit)
        invariant defaultLightInitialized == old(defaultLightInitialized)
        decreases i
      {
        JsArray.RemoveLastOfPrefix(old(lights), i);
        JsArray.RemoveLastOfPrefix(old(helpers), i);
        RemoveDirectionalLight(i);
        i := i - 1;
      }
      lights := [];
      helpers := [];
      active := 0;
    }

    /** The Add button: ignored while structure editing is disabled. */
    method ClickAdd(center: Option<Vec3>)
      requires Valid()
      modifies this
      ensures Valid()
      ensures !old(allowStructureEdit) ==> unchanged(this)
      ensures old(allowStructureEdit) ==>
                lights == old(lights) + [NewLight(LightOptions(None, None, None, None, None, NaN, NaN), center)]
                && active == |lights| - 1
    {
      if !allowStructureEdit {
        return;
      }
      AddDirectionalLight(LightOptions(None, None, None, None, None, NaN, NaN), center);
    }

    /** The Remove button: ignored while structure editing is disabled or when at most one light is left. */
    method ClickRemove()
      requires Valid()
      modifies this
      ensures Valid()
      ensures !old(allowStructureEdit) || |old(lights)| <= 1 ==> unchanged(this)
      ensures old(allowStructureEdit) && |old(lights)| > 1 ==>
                lights == JsArray.RemoveAt(old(lights), old(active)) && |lights| == |old(lights)| - 1 >= 1
    {
      if !allowStructureEdit {
        return;
      }
      if |lights| <= 1 {
        return;
      }
      RemoveDirectionalLight(active);
    }

    /**
     * `applyLightState`: ignored for a non-object. Otherwise the ambient colour is taken when
     * given, a finite ambient intensity is clamped to at least 0, and the light list is
     * rebuilt with one light per entry, or the single default light when the list is empty
     * or not an array. Without a model centre a non-empty list throws after the old lights
     * were cleared; `ok` is false then.
     */
    method ApplyLightState(state: LightState, center: Option<Vec3>) returns (ok: bool)
      requires Valid()
      modifies this
      ensures Valid()
      ensures state.NotObject? ==> ok && unchanged(this)
      ensures state.Obj? && AmbientColorGiven(state) ==> ambientColor == state.ambient.value.color.value
      ensures state.Obj? && !AmbientColorGiven(state) ==> ambientColor == old(ambientColor)
      ensures state.Obj? && AmbientIntensityGiven(state) ==>
                ambientIntensity == MaxR(0.0, state.ambient.value.intensity.v)
      ensures state.Obj? && !AmbientIntensityGiven(state) ==> ambientIntensity == old(ambientIntensity)
      ensures state.Obj? && |DirList(state)| == 0 ==> ok && lights == [NewLight(DefaultLightOptions(), center)]
      ensures state.Obj? && |DirList(state)| > 0 && center.Some? ==> ok && lights == Rebuilt(DirList(state), center.value)
      ensures state.Obj? && |DirList(state)| > 0 && center.None? ==> !ok && lights == []
      ensures state.Obj? && ok ==> active == |lights| - 1
      ensures allowStructureEdit == old(allowStructureEdit)
      ensures defaultLightInitialized == old(defaultLightInitialized)
    {
      if state.NotObject? {
        return true;
      }
      ApplyAmbient(state);
      ClearDirectionalLights();
      var list := DirList(state);
      if |list| == 0 {
        AddDirectionalLight(DefaultLightOptions(), center);
        return true;
      }
      if center.None? {
        return false;
      }
      var mc := center.value;
      var i := 0;
      while i < |list|
        invariant 0 <= i <= |list|
        invariant Valid()
        invariant lights == Rebuilt(list[..i], mc)
        invariant i > 0 ==> active == |lights| - 1
        invariant AmbientColorGiven(state) ==> ambientColor == state.ambient.value.color.value
        invariant !AmbientColorGiven(state) ==> ambientColor == old(ambientColor)
        invariant AmbientIntensityGiven(state) ==> ambientIntensity == MaxR(0.0, state.ambient.value.intensity.v)
        invariant !AmbientIntensityGiven(state) ==> ambientIntensity == old(ambientIntensity)
        invariant allowStructureEdit == old(allowStructureEdit)
        invariant defaultLightInitialized == old(defaultLightInitialized)
      {
        AddDirectionalLight(EntryOptions(list[i], mc), Some(mc));
        RebuiltSnoc(list, i, mc);
        i := i + 1;
      }
      assert list[..i] == list;
      return true;
    }

    /** The ambient part of `applyLightState`: a given colour and a finite intensity, clamped at 0. */
    method ApplyAmbient(state: LightState)
      requires Valid()
      modifies this
      ensures Valid() && lights == old(lights) && helpers == old(helpers) && active == old(active)
      ensures AmbientColorGiven(state) ==> ambientColor == state.ambient.value.color.value
      ensures !AmbientColorGiven(state) ==> ambientColor == old(ambientColor)
      ensures AmbientIntensityGiven(state) ==> ambientIntensity == MaxR(0.0, state.ambient.value.intensity.v)
      ensures !AmbientIntensityGiven(state) ==> ambientIntensity == old(ambientIntensity)
      ensures allowStructureEdit == old(allowStructureEdit)
      ensures defaultLightInitialized == old(defaultLightInitialized)
    {
      if state.Obj? && state.ambient.Some? {
        var amb := state.ambient.value;
        if amb.color.Some? && amb.color.value != "" {
          ambientColor := amb.color.value;
        }
        if amb.intensity.Finite? {
          ambientIntensity := MaxR(0.0, amb.intensity.v);
        }
      }
    }

    /** `resetLights`: white ambient light at intensity 1.0 and exactly the default light. */
    method ResetLights(center: Option<Vec3>)
      requires Valid()
      modifies this
      ensures Valid()
      ensures ambientColor == White && ambientIntensity == 1.0
      ensures lights == [NewLight(DefaultLightOptions(), center)] && active == 0
      ensures allowStructureEdit == old(allowStructureEdit)
      ensures defaultLightInitialized == old(defaultLightInitialized)
    {
      ambientColor := White;
      ambientIntensity := 1.0;
      ClearDirectionalLights();
      assert lights == [];
      AddDirectionalLight(DefaultLightOptions(), center);
      assert lights == [] + [NewLight(DefaultLightOptions(), center)];
    }
  }

  // ---------------------------------------------------------------------------
  // Numeric helpers of the light dialog
  // ---------------------------------------------------------------------------

  /** The body of `^[+-]?\d*\.?\d+$` after the sign: digits, or digits, a dot and at least one digit. */
  predicate PlainDecimalBody(b: string)
  {
    (|b| > 0 && AllDigits(b))
    || (exists k :: 0 <= k < |b| - 1 && b[k] == '.' && AllDigits(b[..k]) && AllDigits(b[k + 1..]))
  }

  /** Text matching `^[+-]?\d*\.?\d+$`. */
  predicate PlainDecimal(t: string)
  {
    if |t| > 0 && (t[0] == '+' || t[0] == '-') then PlainDecimalBody(t[1..]) else PlainDecimalBody(t)
  }

  function Pow10(n: nat): (r: nat)
    ensures r >= 1
  {
    if n == 0 then 1 else 10 * Pow10(n - 1)
  }

  /** Index of the first `c` in `s`, or `|s|`. */
  function IndexOf(s: string, c: char): (k: nat)
    ensures k <= |s|
    ensures forall j :: 0 <= j < k ==> s[j] != c
    ensures k < |s| ==> s[k] == c
  {
    if |s| == 0 then 0 else if s[0] == c then 0 else 1 + IndexOf(s[1..], c)
  }

  lemma IndexOfFirst(s: string, c: char, k: nat)
    requires k < |s| && s[k] == c
    requires forall j :: 0 <= j < k ==> s[j] != c
    ensures IndexOf(s, c) == k
  {
    if k > 0 {
      IndexOfFirst(s[1..], c, k - 1);
    }
  }

  /** The value of a plain decimal body. */
  function BodyValue(b: string): (v: real)
    requires PlainDecimalBody(b)
    ensures v >= 0.0
  {
    var k := IndexOf(b, '.');
    if k == |b| then DigitsValue(b) as real
    else
      assert AllDigits(b[..k]) && AllDigits(b[k + 1..]) by {
        var k' :| 0 <= k' < |b| - 1 && b[k'] == '.' && AllDigits(b[..k']) && AllDigits(b[k' + 1..]);
        forall j | 0 <= j < k' ensures b[j] != '.' {
          assert IsDigit(b[..k'][j]);
        }
        IndexOfFirst(b, '.', k');
      }
      DigitsValue(b[..k]) as real + DigitsValue(b[k + 1..]) as real / Pow10(|b| - k - 1) as real
  }

  /** `Number(t)` for plain decimal text. */
  function DecimalValue(t: string): real
    requires PlainDecimal(t)
  {
    if |t| > 0 && t[0] == '-' then -BodyValue(t[1..])
    else if |t| > 0 && t[0] == '+' then BodyValue(t[1..])
    else BodyValue(t)
  }

  // Characters allowed in a substituted expression: digits, + - * / ( ) . and `\s`.
  predicate ExprChar(c: char)
  {
    IsDigit(c) || c == '+' || c == '-' || c == '*' || c == '/' || c == '(' || c == ')' || c == '.' || IsJsSpace(c)
  }

  predicate AllExprChars(s: string)
  {
    forall i :: 0 <= i < |s| ==> ExprChar(s[i])
  }

  // Word substitution before the whitelist test.

  /** `\w` of a JavaScript regular expression without the `u` flag. */
  predicate IsWordChar(c: char)
  {
    'a' <= c <= 'z' || 'A' <= c <= 'Z' || IsDigit(c) || c == '_'
  }

  /** The length of the run of word characters that starts `s`. */
  function WordRun(s: string): (k: nat)
    ensures k <= |s| && forall i :: 0 <= i < k ==> IsWordChar(s[i])
    ensures k < |s| ==> !IsWordChar(s[k])
    ensures |s| > 0 && IsWordChar(s[0]) ==> k > 0
  {
    if |s| == 0 || !IsWordChar(s[0]) then 0 else 1 + WordRun(s[1..])
  }

  /**
   * `s.replace(/\b(w1|w2|...)\b/gi, rep)`. With a word boundary on both sides, a match is a
   * whole run of word characters, so every run equal to one of `words` up to ASCII case is
   * replaced by `rep` and everything else is kept.
   */
  function ReplaceWords(s: string, words: set<string>, rep: string): string
    decreases |s|
  {
    if |s| == 0 then ""
    else if !IsWordChar(s[0]) then [s[0]] + ReplaceWords(s[1..], words, rep)
    else
      var k := WordRun(s);
      (if Lower(s[..k]) in words then rep else s[..k]) + ReplaceWords(s[k..], words, rep)
  }

  predicate IsLetter(c: char) { 'a' <= c <= 'z' || 'A' <= c <= 'Z' }

  predicate HasLetter(s: string) { exists i :: 0 <= i < |s| && IsLetter(s[i]) }

  /** Text without letters is left alone when every replaced word holds a letter. */
  lemma {:induction false} ReplaceWordsNoLetters(s: string, words: set<string>, rep: string)
    requires forall i :: 0 <= i < |s| ==> !IsLetter(s[i])
    requires forall w :: w in words ==> HasLetter(w)
    ensures ReplaceWords(s, words, rep) == s
    decreases |s|
  {
    if |s| > 0 {
      if !IsWordChar(s[0]) {
        ReplaceWordsNoLetters(s[1..], words, rep);
      } else {
        var k := WordRun(s);
        var w := s[..k];
        LowerNoLetters(w);
        assert !HasLetter(w);
        ReplaceWordsNoLetters(s[k..], words, rep);
        assert s == w + s[k..];
      }
    }
  }

  /** Lower-casing text without letters changes nothing. */
  lemma {:induction false} LowerNoLetters(w: string)
    requires forall i :: 0 <= i < |w| ==> !IsLetter(w[i])
    ensures Lower(w) == w
    decreases |w|
  {
    if |w| > 0 {
      LowerNoLetters(w[1..]);
      LowerConcat(w[..1], w[1..]);
      assert w == w[..1] + w[1..];
    }
  }

  /** `String(Math.PI)` and `String(Math.E)`. */
  const PiText: string := "3.141592653589793"
  const EText: string := "2.718281828459045"
  const BaseWords: set<string> := {"value", "v", "x", "pos"}

  /**
   * The three replacements of `evaluateNumericInput`, in order: `value`, `v`, `x` and `pos`
   * become `(base)`, then `pi` and then `e` become their constants. `numberText` is
   * JavaScript's `String(number)`.
   */
  function Substitute(text: string, base: real, numberText: real -> string): string
  {
    var withBase := ReplaceWords(text, BaseWords, "(" + numberText(base) + ")");
    var withPi := ReplaceWords(withBase, {"pi"}, PiText);
    ReplaceWords(withPi, {"e"}, EText)
  }

  /**
   * 2^1024 − 2^970: the least magnitude `Number(text)` rounds to an infinity (the largest
   * double is 2^1024 − 2^971, and the halfway point rounds to even, away from it).
   */
  const DoubleOverflow: real := 179769313486231580793728971405303415079934132710037826936173778980444968292764750946649017977587207096330286416692887910946555547851940402630657488671505820681908902000708383676273854845817711531764475730270069855571366959622842914819860834936475292719074168444365510704342711559699508093042880177904174497792.0

  /**
   * `evaluateNumericInput(raw, fallback)`. `numberText` is `String(number)`; evaluating the
   * substituted expression is `evaluate`, `None` when it throws.
   */
  function EvaluateNumericInput(raw: string, fallback: JsNum,
                                numberText: real -> string,
                                evaluate: string -> Option<JsNum>): (r: JsNum)
    ensures r.NaN? || r.Finite?
    ensures Trim(raw) == "" ==> r.NaN?
    ensures Trim(raw) != "" && PlainDecimal(Trim(raw)) && AbsR(DecimalValue(Trim(raw))) < DoubleOverflow ==>
              r == Finite(DecimalValue(Trim(raw)))
    ensures Trim(raw) != "" && PlainDecimal(Trim(raw)) && AbsR(DecimalValue(Trim(raw))) >= DoubleOverflow ==>
              r.NaN?
    ensures Trim(raw) != "" && !PlainDecimal(Trim(raw))
            && !AllExprChars(Substitute(Trim(raw), if fallback.Finite? then fallback.v else 0.0, numberText)) ==>
              r.NaN?
    ensures Trim(raw) != "" && !PlainDecimal(Trim(raw))
            && AllExprChars(Substitute(Trim(raw), if fallback.Finite? then fallback.v else 0.0, numberText)) ==>
              r == match evaluate(Substitute(Trim(raw), if fallback.Finite? then fallback.v else 0.0, numberText))
                   case Some(Finite(v)) => Finite(v)
                   case _ => NaN
  {
    var text := Trim(raw);
    if text == "" then NaN
    else if PlainDecimal(text) then
      if AbsR(DecimalValue(text)) < DoubleOverflow then Finite(DecimalValue(text)) else NaN
    else
      var base := if fallback.Finite? then fallback.v else 0.0;
      var expr := Substitute(text, base, numberText);
      if !AllExprChars(expr) then NaN
      else
        match evaluate(expr)
        case Some(Finite(v)) => Finite(v)
        case _ => NaN
  }

  /** `trim` removes a leading byte-order mark, so the text is the plain number 1. */
  lemma ByteOrderMarkTrimmed(fallback: JsNum, numberText: real -> string,
                             evaluate: string -> Option<JsNum>)
    ensures EvaluateNumericInput("\U{feff}1", fallback, numberText, evaluate) == Finite(1.0)
  {
    TrimByteOrderMark();
    PlainOne();
  }

  lemma TrimByteOrderMark()
    ensures Trim("\U{feff}1") == "1"
  {
    var raw := "\U{feff}1";
    assert raw[1..] == "1";
    assert TrimStart(raw) == "1";
    assert TrimEnd("1") == "1";
  }

  lemma PlainOne()
    ensures PlainDecimal("1") && DecimalValue("1") == 1.0
  {
    assert AllDigits("1");
    assert IndexOf("1", '.') == 1;
    assert DigitsValue("1") == 1 by { assert "1"[..0] == ""; }
  }

  /** `trim` keeps U+001C, which `\s` does not accept either, so the text is not a number. */
  lemma InformationSeparatorKept(fallback: JsNum, numberText: real -> string,
                                 evaluate: string -> Option<JsNum>)
    ensures EvaluateNumericInput("1\U{1c}", fallback, numberText, evaluate) == NaN
  {
    var raw := "1\U{1c}";
    assert !IsJsSpace(raw[0]) && !IsJsSpace(raw[1]);
    assert Trim(raw) == raw;
    assert !AllDigits(raw) by { assert !IsDigit(raw[1]); }
    assert !PlainDecimal(raw);
    var base := if fallback.Finite? then fallback.v else 0.0;
    NoLettersSubstituted(raw, base, numberText);
    assert !ExprChar(raw[1]);
  }

  /** Text without letters goes to the whitelist unchanged. */
  lemma NoLettersSubstituted(text: string, base: real, numberText: real -> string)
    requires forall i :: 0 <= i < |text| ==> !IsLetter(text[i])
    ensures Substitute(text, base, numberText) == text
  {
    WordsHaveLetters();
    ReplaceWordsNoLetters(text, BaseWords, "(" + numberText(base) + ")");
    ReplaceWordsNoLetters(text, {"pi"}, PiText);
    ReplaceWordsNoLetters(text, {"e"}, EText);
  }

  lemma WordsHaveLetters()
    ensures forall w :: w in BaseWords ==> HasLetter(w)
    ensures HasLetter("pi") && HasLetter("e")
  {
    assert IsLetter("value"[0]) && IsLetter("v"[0]) && IsLetter("x"[0]) && IsLetter("pos"[0]);
    assert IsLetter("pi"[0]) && IsLetter("e"[0]);
  }

  /** A character outside `\w` is kept and the replacement goes on after it. */
  lemma ReplaceAfterNonWord(c: char, rest: string, words: set<string>, rep: string)
    requires !IsWordChar(c)
    ensures ReplaceWords([c] + rest, words, rep) == [c] + ReplaceWords(rest, words, rep)
  {
    assert ([c] + rest)[1..] == rest;
  }

  /** A non-empty run of word characters. */
  predicate IsWord(w: string)
  {
    |w| > 0 && forall i :: 0 <= i < |w| ==> IsWordChar(w[i])
  }

  /** A whole run of word characters is replaced when it is one of the words, and kept otherwise. */
  lemma ReplaceRun(w: string, rest: string, words: set<string>, rep: string)
    requires IsWord(w)
    requires |rest| == 0 || !IsWordChar(rest[0])
    ensures ReplaceWords(w + rest, words, rep) ==
              (if Lower(w) in words then rep else w) + ReplaceWords(rest, words, rep)
  {
    RunOf(w, rest);
    assert (w + rest)[..|w|] == w && (w + rest)[|w|..] == rest;
  }

  lemma {:induction false} RunOf(w: string, rest: string)
    requires forall i :: 0 <= i < |w| ==> IsWordChar(w[i])
    requires |rest| == 0 || !IsWordChar(rest[0])
    ensures WordRun(w + rest) == |w|
    decreases |w|
  {
    if |w| > 0 {
      RunOf(w[1..], rest);
      assert (w + rest)[1..] == w[1..] + rest;
    }
  }

  /** "2*PI" is read as 2 times `Math.PI` whatever the fallback. */
  lemma TwoPi(fallback: JsNum, numberText: real -> string, evaluate: string -> Option<JsNum>)
    ensures EvaluateNumericInput("2*PI", fallback, numberText, evaluate) ==
              match evaluate("2*" + PiText)
              case Some(Finite(v)) => Finite(v)
              case _ => NaN
  {
    var raw := "2*PI";
    assert !IsJsSpace(raw[0]) && !IsJsSpace(raw[3]);
    assert Trim(raw) == raw;
    assert !PlainDecimal(raw) by {
      assert !IsDigit(raw[1]) && raw[1] != '.' && raw[0] != '+' && raw[0] != '-';
    }
    var base := if fallback.Finite? then fallback.v else 0.0;
    TwoPiWords(base, numberText);
    PiTextAllowed();
  }

  lemma PiTextAllowed()
    ensures AllExprChars("2*" + PiText)
  {
  }

  lemma TwoPiWords(base: real, numberText: real -> string)
    ensures Substitute("2*PI", base, numberText) == "2*" + PiText
  {
    TwoPiKeepsBase("(" + numberText(base) + ")");
    TwoPiReplacesPi();
    PiTextNoLetters();
    WordsHaveLetters();
    ReplaceWordsNoLetters("2*" + PiText, {"e"}, EText);
  }

  lemma TwoPiKeepsBase(rep: string)
    ensures ReplaceWords("2*PI", BaseWords, rep) == "2*PI"
  {
    var two, pi := "2", "PI";
    assert "2*PI" == two + (['*'] + pi);
    assert Lower(pi) == "pi" by { LowerConcat("P", "I"); }
    assert Lower(two) == two by { LowerNoLetters(two); }
    NotBaseWords();
    ReplaceBinary(two, '*', pi, BaseWords, rep);
  }

  lemma NotBaseWords()
    ensures "pi" !in BaseWords && "2" !in BaseWords && "q" !in BaseWords
  {
    assert "pi" != "value" && "pi" != "pos" && "pi"[0] != "v"[0] && "pi"[0] != "x"[0];
  }

  lemma TwoPiReplacesPi()
    ensures ReplaceWords("2*PI", {"pi"}, PiText) == "2*" + PiText
  {
    var two, pi := "2", "PI";
    assert "2*PI" == two + (['*'] + pi);
    assert "2*" + PiText == two + (['*'] + PiText);
    assert Lower(pi) == "pi" by { LowerConcat("P", "I"); }
    assert Lower(two) == two by { LowerNoLetters(two); }
    ReplaceBinary(two, '*', pi, {"pi"}, PiText);
  }

  lemma PiTextNoLetters()
    ensures forall i :: 0 <= i < |"2*" + PiText| ==> !IsLetter(("2*" + PiText)[i])
  {
  }

  /** `a op b` with `a` and `b` words: each word is replaced on its own. */
  lemma ReplaceBinary(a: string, op: char, b: string, words: set<string>, rep: string)
    requires IsWord(a) && IsWord(b) && !IsWordChar(op)
    ensures ReplaceWords(a + ([op] + b), words, rep) ==
              (if Lower(a) in words then rep else a) + ([op] + (if Lower(b) in words then rep else b))
  {
    var ra := if Lower(a) in words then rep else a;
    var rb := if Lower(b) in words then rep else b;
    assert ReplaceWords(b, words, rep) == rb by {
      ReplaceRun(b, "", words, rep);
      assert b + "" == b;
      assert ReplaceWords("", words, rep) == "";
      assert rb + "" == rb;
    }
    assert ReplaceWords([op] + b, words, rep) == [op] + rb by {
      ReplaceAfterNonWord(op, b, words, rep);
    }
    assert ReplaceWords(a + ([op] + b), words, rep) == ra + ([op] + rb) by {
      ReplaceRun(a, [op] + b, words, rep);
    }
  }

  /** A word the substitution does not know, such as "q", is refused. */
  lemma UnknownWordRefused(fallback: JsNum, numberText: real -> string, evaluate: string -> Option<JsNum>)
    ensures EvaluateNumericInput("2*q", fallback, numberText, evaluate) == NaN
  {
    var raw := "2*q";
    assert !IsJsSpace(raw[0]) && !IsJsSpace(raw[2]);
    assert Trim(raw) == raw;
    assert !PlainDecimal(raw) by {
      assert !IsDigit(raw[1]) && raw[1] != '.' && raw[0] != '+' && raw[0] != '-';
    }
    var base := if fallback.Finite? then fallback.v else 0.0;
    UnknownWordSubstituted(base, numberText);
    assert !ExprChar(raw[2]);
  }

  lemma UnknownWordSubstituted(base: real, numberText: real -> string)
    ensures Substitute("2*q", base, numberText) == "2*q"
  {
    NotBaseWords();
    UnknownWordKept("2*q", BaseWords, "(" + numberText(base) + ")");
    UnknownWordKept("2*q", {"pi"}, PiText);
    UnknownWordKept("2*q", {"e"}, EText);
  }

  lemma UnknownWordKept(raw: string, words: set<string>, rep: string)
    requires raw == "2*q" && "q" !in words && "2" !in words
    ensures ReplaceWords(raw, words, rep) == raw
  {
    var two, q := "2", "q";
    assert raw == two + (['*'] + q);
    assert Lower(two) == two by { LowerNoLetters(two); }
    assert Lower(q) == q;
    ReplaceBinary(two, '*', q, words, rep);
  }

  /** `normalizeAngleDeg`: non-finite input gives 0, finite input wraps into [0, 360). */
  function NormalizeAngleDeg(d: JsNum): (r: real)
    ensures 0.0 <= r < 360.0
    ensures !d.Finite? ==> r == 0.0
  {
    if !d.Finite? then 0.0 else JsRem360(JsRem360(d.v) + 360.0)
  }

  /** A wrapped angle differs from its input by a whole number of turns. */
  lemma NormalizeAngleShift(d: real) returns (turns: int)
    ensures NormalizeAngleDeg(Finite(d)) == d + 360.0 * turns as real
  {
    var t1 := Trunc(d / 360.0);
    var x := JsRem360(d) + 360.0;
    var t2 := Trunc(x / 360.0);
    turns := -t1 + 1 - t2;
  }

  /** Wrapping is the identity on [0, 360), hence idempotent. */
  lemma NormalizeAngleIdentity(d: real)
    requires 0.0 <= d < 360.0
    ensures NormalizeAngleDeg(Finite(d)) == d
  {
    assert Trunc(d / 360.0) == 0;
    assert Trunc((d + 360.0) / 360.0) == 1;
  }

  const MaxPitchDeg: real := 89.9999

  /** `clampPitchDeg`: non-finite input gives 0; finite input is clamped into ±89.9999. */
  function ClampPitchDeg(d: JsNum): (r: real)
    ensures -MaxPitchDeg <= r <= MaxPitchDeg
    ensures !d.Finite? ==> r == 0.0
    ensures d.Finite? && -MaxPitchDeg <= d.v <= MaxPitchDeg ==> r == d.v
    ensures d.Finite? && d.v > MaxPitchDeg ==> r == MaxPitchDeg
    ensures d.Finite? && d.v < -MaxPitchDeg ==> r == -MaxPitchDeg
  {
    if !d.Finite? then 0.0 else MaxR(-MaxPitchDeg, MinR(MaxPitchDeg, d.v))
  }

  /** The signed step `lerpHue` takes from `a` towards `b`. */
  function HueDelta(a: real, b: real): (delta: real)
  {
    var d0 := b - a;
    var d1 := if d0 > 0.5 then d0 - 1.0 else d0;
    if d1 < -0.5 then d1 + 1.0 else d1
  }

  /** `lerpHue(a, b, t)`. */
  function LerpHue(a: real, b: real, t: real): real
  {
    var next := a + HueDelta(a, b) * t;
    var n1 := if next < 0.0 then next + 1.0 else next;
    if n1 > 1.0 then n1 - 1.0 else n1
  }

  /** For hues in [0, 1] the step takes the short way round: at most half a turn, congruent to b − a. */
  lemma HueDeltaShortArc(a: real, b: real)
    requires 0.0 <= a <= 1.0 && 0.0 <= b <= 1.0
    ensures -0.5 <= HueDelta(a, b) <= 0.5
    ensures HueDelta(a, b) == b - a || HueDelta(a, b) == b - a - 1.0 || HueDelta(a, b) == b - a + 1.0
  {
  }

  /**
   * For hues and `t` in [0, 1] the interpolated hue is in [0, 1]; it is `a` at `t = 0` and
   * the same hue as `b` at `t = 1` (0 and 1 being the same hue).
   */
  lemma LerpHueBounds(a: real, b: real, t: real)
    requires 0.0 <= a <= 1.0 && 0.0 <= b <= 1.0 && 0.0 <= t <= 1.0
    ensures 0.0 <= LerpHue(a, b, t) <= 1.0
    ensures t == 0.0 ==> LerpHue(a, b, t) == a
    ensures t == 1.0 ==> LerpHue(a, b, t) == b || (b == 0.0 && LerpHue(a, b, t) == 1.0) || (b == 1.0 && LerpHue(a, b, t) == 0.0)
  {
    HueDeltaShortArc(a, b);
    var d := HueDelta(a, b);
    assert -0.5 <= d * t <= 0.5 by {
      if d >= 0.0 { assert d * t <= d * 1.0; } else { assert d * t >= d * 1.0; }
    }
  }

  /** A normalised light entry: every field has its default filled in. */
  datatype NormEntry = NormEntry(
    kind: string, color: string, intensity: real, position: Option<Vec3>, target: Option<Vec3>,
    distance: Option<real>, range: Option<real>,
    angle: Option<real>, penumbra: Option<real>, decay: Option<real>)

  datatype NormState = NormState(ambientColor: string, ambientIntensity: real, directional: seq<NormEntry>)

  /** `Number.isFinite(x) ? x : undefined` */
  function FiniteOrNone(x: JsNum): (r: Option<real>)
    ensures r.Some? <==> x.Finite?
    ensures x.Finite? ==> r.value == x.v
  {
    if x.Finite? then Some(x.v) else None
  }

  /**
   * One entry of `normalizeLightState`: a missing or empty type becomes 'directional', a
   * missing or empty colour '#ffffff', a non-finite intensity 1.0; positions are kept as
   * they are and each of distance, range, angle, penumbra and decay is kept when finite
   * and dropped otherwise.
   */
  function NormalizeEntry(e: Entry): (n: NormEntry)
    ensures n.kind != "" && n.color != ""
    ensures n.kind == (if e.kind.Some? && e.kind.value != "" then e.kind.value else "directional")
    ensures n.color == (if e.color.Some? && e.color.value != "" then e.color.value else White)
    ensures e.intensity.Finite? ==> n.intensity == e.intensity.v
    ensures !e.intensity.Finite? ==> n.intensity == 1.0
    ensures n.position == e.position && n.target == e.target
    ensures n.distance.Some? <==> e.distance.Finite?
    ensures n.range.Some? <==> e.range.Finite?
    ensures n.angle.Some? <==> e.angle.Finite?
    ensures n.penumbra.Some? <==> e.penumbra.Finite?
    ensures n.decay.Some? <==> e.decay.Finite?
    ensures e.distance.Finite? ==> n.distance.value == e.distance.v
    ensures e.range.Finite? ==> n.range.value == e.range.v
    ensures e.angle.Finite? ==> n.angle.value == e.angle.v
    ensures e.penumbra.Finite? ==> n.penumbra.value == e.penumbra.v
    ensures e.decay.Finite? ==> n.decay.value == e.decay.v
  {
    NormEntry(
      OrDefault(e.kind, "directional"),
      OrDefault(e.color, White),
      if e.intensity.Finite? then e.intensity.v else 1.0,
      e.position, e.target,
      FiniteOrNone(e.distance), FiniteOrNone(e.range),
      FiniteOrNone(e.angle), FiniteOrNone(e.penumbra), FiniteOrNone(e.decay))
  }

  /**
   * `normalizeLightState`: the fallback (white, 1.0, no lights) for a non-object; otherwise
   * one normalised entry per directional entry, in order.
   */
  function NormalizeLightState(state: LightState): (n: NormState)
    ensures state.NotObject? ==> n == NormState(White, 1.0, [])
    ensures |n.directional| == |DirList(state)|
    ensures forall i :: 0 <= i < |n.directional| ==>
              n.directional[i] == NormalizeEntry(DirList(state)[i])
    ensures n.ambientColor != ""
    ensures state.Obj? ==> n.ambientColor == (if AmbientColorGiven(state) then state.ambient.value.color.value else White)
    ensures state.Obj? ==> n.ambientIntensity == (if AmbientIntensityGiven(state) then state.ambient.value.intensity.v else 1.0)
  {
    if state.NotObject? then NormState(White, 1.0, [])
    else
      var amb := if state.ambient.Some? then state.ambient.value else Ambient(Some(White), Finite(1.0));
      var list := DirList(state);
      NormState(
        OrDefault(amb.color, White),
        if amb.intensity.Finite? then amb.intensity.v else 1.0,
        seq(|list|, i requires 0 <= i < |list| => NormalizeEntry(list[i])))
  }

  /** A normalised state read back as a saved state. */
  function AsState(n: NormState): LightState
  {
    Obj(Some(Ambient(Some(n.ambientColor), Finite(n.ambientIntensity))),
        Some(seq(|n.directional|, i requires 0 <= i < |n.directional| => AsEntry(n.directional[i]))))
  }

  function AsEntry(n: NormEntry): Entry
  {
    Entry(Some(n.kind), Some(n.color), Finite(n.intensity), n.position, n.target,
          AsNumber(n.distance), AsNumber(n.range), AsNumber(n.angle), AsNumber(n.penumbra), AsNumber(n.decay))
  }

  /** An optional number written back: `undefined` reads back as not finite. */
  function AsNumber(x: Option<real>): JsNum
  {
    if x.Some? then Finite(x.value) else NaN
  }

  /** Normalising a normalised state changes nothing. */
  lemma NormalizeIdempotent(state: LightState)
    ensures NormalizeLightState(AsState(NormalizeLightState(state))) == NormalizeLightState(state)
  {
    var n := NormalizeLightState(state);
    var m := NormalizeLightState(AsState(n));
    assert |m.directional| == |n.directional|;
    forall i | 0 <= i < |n.directional| ensures m.directional[i] == n.directional[i] {
      assert DirList(AsState(n))[i] == AsEntry(n.directional[i]);
    }
  }
}
