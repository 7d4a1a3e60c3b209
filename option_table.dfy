/**
 * The renderer option table: a map from option to a float value, with per-option
 * clamping, an early exit when the value is already stored, the HDR rejection, and
 * the cascading rules between Antialiasing and Upsampling.
 */
module OptionTable {
  import opened RendererTypes

  datatype RendererOption =
    | Hdr | PaperWhite | Bloom | MotionBlur | DepthOfField
    | ScreenSpaceGlobalIllumination | ScreenSpaceShadows | ScreenSpaceReflections
    | FilmGrain | ChromaticAberration | Anisotropy | ShadowResolution | Tonemapping
    | Gamma | Exposure | Sharpness | Fog | FogVolumetric | Antialiasing | Upsampling
    | Vsync | Debanding | DebugTransformHandle | DebugSelectionOutline | DebugGrid
    | DebugReflectionProbes | DebugLights | DebugPhysics | DebugPerformanceMetrics
    | DebugAabb | DebugPickingRay | DebugWireframe

  type Options = map<RendererOption, real>

  // Renderer_Antialiasing ordinals
  const AntialiasingDisabled: int := 0
  const AntialiasingFxaa: int := 1
  const AntialiasingTaa: int := 2
  const AntialiasingTaaFxaa: int := 3
  // Renderer_Upsampling ordinals
  const UpsamplingLinear: int := 0
  const UpsamplingFsr2: int := 1

  /** resolution_shadow_min */
  const ShadowResolutionMin: real := 128.0
  const AnisotropyMax: real := 16.0

  /** A float-to-integer cast: truncation toward zero. */
  function Truncate(x: real): (r: int)
    ensures x >= 0.0 ==> 0 <= r && r as real <= x < r as real + 1.0
    ensures x < 0.0 ==> r <= 0 && r as real - 1.0 < x <= r as real
  {
    if x >= 0.0 then x.Floor else -((-x).Floor)
  }

  /** GetOption read as an enum: the stored float cast to its ordinal; an absent option reads 0. */
  function EnumOption(options: Options, option: RendererOption): int
  {
    if option in options then Truncate(options[option]) else 0
  }

  /** GetOption read as a bool: the stored float is non-zero. */
  predicate BoolOption(options: Options, option: RendererOption)
  {
    option in options && options[option] != 0.0
  }

  /** The standard clamp: a value below the range becomes its lower end, a value above
      it its upper end, and a value inside it is kept. */
  function Clamp(x: real, lo: real, hi: real): (r: real)
    requires lo <= hi
    ensures lo <= r <= hi
    ensures lo <= x <= hi ==> r == x
    ensures x < lo ==> r == lo
    ensures x > hi ==> r == hi
  {
    if x < lo then lo else if x > hi then hi else x
  }

  /** The value SetOption works with: Anisotropy clamped to [0, 16], ShadowResolution
      to [128, the device's maximum texture dimension], any other option as given. */
  function ClampedValue(option: RendererOption, value: real, maxTextureDimension: real): (r: real)
    requires maxTextureDimension >= ShadowResolutionMin
    ensures option == Anisotropy ==> 0.0 <= r <= AnisotropyMax && (0.0 <= value <= AnisotropyMax ==> r == value)
    ensures option == ShadowResolution ==>
      ShadowResolutionMin <= r <= maxTextureDimension && (ShadowResolutionMin <= value <= maxTextureDimension ==> r == value)
    ensures option == Anisotropy && value < 0.0 ==> r == 0.0
    ensures option == Anisotropy && value > AnisotropyMax ==> r == AnisotropyMax
    ensures option == ShadowResolution && value < ShadowResolutionMin ==> r == ShadowResolutionMin
    ensures option == ShadowResolution && value > maxTextureDimension ==> r == maxTextureDimension
    ensures option != Anisotropy && option != ShadowResolution ==> r == value
  {
    if option == Anisotropy then Clamp(value, 0.0, AnisotropyMax)
    else if option == ShadowResolution then Clamp(value, ShadowResolutionMin, maxTextureDimension)
    else value
  }

  /** Antialiasing counts as TAA when it is Taa or TaaFxaa (compared as floats). */
  predicate IsTaaValue(value: real)
  {
    value == AntialiasingTaa as real || value == AntialiasingTaaFxaa as real
  }

  datatype Verdict = AlreadySet | HdrUnsupported | Committed

  /** Whether SetOption stores the clamped value: not when it is already stored, and not
      when it asks for HDR on a display without HDR. */
  function SetVerdict(options: Options, option: RendererOption, clamped: real, displayHdr: bool): Verdict
  {
    if option in options && options[option] == clamped then AlreadySet
    else if option == Hdr && clamped == 1.0 && !displayHdr then HdrUnsupported
    else Committed
  }

  /** The one option a cascade may write besides the option being set. */
  function Dependent(option: RendererOption): Option<RendererOption>
  {
    if option == Antialiasing then Some(Upsampling)
    else if option == Upsampling then Some(Antialiasing)
    else None
  }

  /** The cascade applied to a table in which `option` was just set to `value`:
      the new table and whether FSR 2 history is reset. */
  function Cascade(options: Options, option: RendererOption, value: real): (Options, bool)
  {
    if option == Antialiasing then
      var fsrEnabled := EnumOption(options, Upsampling) == UpsamplingFsr2;
      if IsTaaValue(value) then
        if !fsrEnabled then (options[Upsampling := UpsamplingFsr2 as real], true) else (options, false)
      else
        if fsrEnabled then (options[Upsampling := UpsamplingLinear as real], false) else (options, false)
    else if option == Upsampling then
      var taaEnabled := EnumOption(options, Antialiasing) == AntialiasingTaa;
      if value == UpsamplingLinear as real then
        if taaEnabled then (options[Antialiasing := AntialiasingDisabled as real], false) else (options, false)
      else if value == UpsamplingFsr2 as real then
        if !taaEnabled then (options[Antialiasing := AntialiasingTaa as real], true) else (options, false)
      else (options, false)
    else (options, false)
  }

  /** Every light in `lights` with shadows enabled gets its shadow map refreshed, in order. */
  function ShadowRefreshes(lights: seq<Entity>): seq<Event>
  {
    if lights == [] then [] else
      var last := lights[|lights| - 1];
      ShadowRefreshes(lights[..|lights| - 1])
        + if last.light.Some? && last.light.value.shadows then [ShadowMapRefreshed(last.id)] else []
  }

  lemma {:induction false} ShadowRefreshesExactlyShadowedLights(lights: seq<Entity>, id: EntityId)
    ensures ShadowMapRefreshed(id) in ShadowRefreshes(lights) <==>
      exists i :: 0 <= i < |lights| && lights[i].id == id && lights[i].light.Some? && lights[i].light.value.shadows
  {
    if lights != [] {
      var prefix := lights[..|lights| - 1];
      ShadowRefreshesExactlyShadowedLights(prefix, id);
      assert forall i :: 0 <= i < |prefix| ==> prefix[i] == lights[i];
    }
  }

  /** Everything SetOption does: the new table, the collaborator calls and whether it
      fires LightOnChanged (which marks the light records dirty). */
  datatype SetOptionResult = SetOptionResult(options: Options, events: seq<Event>, lightsChanged: bool)

  function AfterSetOption(options: Options, option: RendererOption, value: real,
                          maxTextureDimension: real, displayHdr: bool, lights: seq<Entity>): SetOptionResult
    requires maxTextureDimension >= ShadowResolutionMin
  {
    var v := ClampedValue(option, value, maxTextureDimension);
    if SetVerdict(options, option, v, displayHdr) != Committed then SetOptionResult(options, [], false)
    else
      var (cascaded, resetFsr2) := Cascade(options[option := v], option, v);
      var events :=
        if resetFsr2 then [Fsr2HistoryReset]
        else if option == ShadowResolution then ShadowRefreshes(lights)
        else if option == Hdr then [SwapChainHdrSet(v == 1.0)]
        else if option == Vsync then [SwapChainVsyncSet(v == 1.0)]
        else [];
      SetOptionResult(cascaded, events, option == FogVolumetric || option == ScreenSpaceShadows)
  }

  /** Unless the call is rejected, the option reads back as its clamped value. */
  lemma SetThenGet(options: Options, option: RendererOption, value: real,
                   maxTextureDimension: real, displayHdr: bool, lights: seq<Entity>)
    requires maxTextureDimension >= ShadowResolutionMin
    requires SetVerdict(options, option, ClampedValue(option, value, maxTextureDimension), displayHdr) != HdrUnsupported
    ensures var r := AfterSetOption(options, option, value, maxTextureDimension, displayHdr, lights).options;
      option in r && r[option] == ClampedValue(option, value, maxTextureDimension)
  {
  }

  /** An already-stored value and a rejected HDR request both leave everything as it was. */
  lemma NoChangeUnlessCommitted(options: Options, option: RendererOption, value: real,
                                maxTextureDimension: real, displayHdr: bool, lights: seq<Entity>)
    requires maxTextureDimension >= ShadowResolutionMin
    requires (option in options && options[option] == ClampedValue(option, value, maxTextureDimension))
          || (option == Hdr && value == 1.0 && !displayHdr)
    ensures AfterSetOption(options, option, value, maxTextureDimension, displayHdr, lights)
         == SetOptionResult(options, [], false)
  {
  }

  /** Only the option itself and its dependent can change; everything else keeps its
      presence and value, so a cascade writes at most one other option. */
  lemma OnlyOptionAndDependentChange(options: Options, option: RendererOption, value: real,
                                     maxTextureDimension: real, displayHdr: bool, lights: seq<Entity>,
                                     other: RendererOption)
    requires maxTextureDimension >= ShadowResolutionMin
    requires other != option && Dependent(option) != Some(other)
    ensures var r := AfterSetOption(options, option, value, maxTextureDimension, displayHdr, lights).options;
      (other in r <==> other in options) && (other in options ==> r[other] == options[other])
  {
  }

  /** Antialiasing cascade: TAA (Taa or TaaFxaa) leaves Upsampling at FSR 2, resetting its
      history when it forces it; any other value turns FSR 2 into Linear. */
  lemma AntialiasingCascade(options: Options, value: real, maxTextureDimension: real,
                            displayHdr: bool, lights: seq<Entity>)
    requires maxTextureDimension >= ShadowResolutionMin
    requires !(Antialiasing in options && options[Antialiasing] == value)
    ensures var r := AfterSetOption(options, Antialiasing, value, maxTextureDimension, displayHdr, lights);
      && r.options[Antialiasing] == value
      && (IsTaaValue(value) ==> EnumOption(r.options, Upsampling) == UpsamplingFsr2)
      && (IsTaaValue(value) ==> (r.events == [Fsr2HistoryReset] <==> EnumOption(options, Upsampling) != UpsamplingFsr2))
      && (!IsTaaValue(value) && EnumOption(options, Upsampling) == UpsamplingFsr2 ==>
            r.options[Upsampling] == UpsamplingLinear as real)
      && (!IsTaaValue(value) && EnumOption(options, Upsampling) != UpsamplingFsr2 ==>
            r.options == options[Antialiasing := value])
      && (!IsTaaValue(value) ==> r.events == [])
  {
  }

  /** Upsampling cascade: Linear turns AA=Taa into Disabled, FSR 2 turns any AA other than
      Taa (TaaFxaa included) into Taa and resets history; other values cascade nothing. */
  lemma UpsamplingCascade(options: Options, value: real, maxTextureDimension: real,
                          displayHdr: bool, lights: seq<Entity>)
    requires maxTextureDimension >= ShadowResolutionMin
    requires !(Upsampling in options && options[Upsampling] == value)
    ensures var r := AfterSetOption(options, Upsampling, value, maxTextureDimension, displayHdr, lights);
      && r.options[Upsampling] == value
      && (value == UpsamplingLinear as real && EnumOption(options, Antialiasing) == AntialiasingTaa ==>
            r.options[Antialiasing] == AntialiasingDisabled as real)
      && (value == UpsamplingFsr2 as real && EnumOption(options, Antialiasing) != AntialiasingTaa ==>
            r.options[Antialiasing] == AntialiasingTaa as real && r.events == [Fsr2HistoryReset])
      && (!(value == UpsamplingLinear as real && EnumOption(options, Antialiasing) == AntialiasingTaa) &&
          !(value == UpsamplingFsr2 as real && EnumOption(options, Antialiasing) != AntialiasingTaa) ==>
            r.options == options[Upsampling := value] && r.events == [])
  {
  }

  /** The two rules disagree on TaaFxaa: setting Upsampling to FSR 2 while AA is TaaFxaa
      forces AA down to plain Taa. */
  lemma Fsr2ReplacesTaaFxaa(options: Options, maxTextureDimension: real, displayHdr: bool, lights: seq<Entity>)
    requires maxTextureDimension >= ShadowResolutionMin
    requires Antialiasing in options && options[Antialiasing] == AntialiasingTaaFxaa as real
    requires !(Upsampling in options && options[Upsampling] == UpsamplingFsr2 as real)
    ensures AfterSetOption(options, Upsampling, UpsamplingFsr2 as real, maxTextureDimension, displayHdr, lights)
              .options[Antialiasing] == AntialiasingTaa as real
  {
  }

  /** And setting Upsampling to Linear while AA is TaaFxaa leaves TaaFxaa in place, a
      combination that setting AA to TaaFxaa itself never produces. */
  lemma LinearKeepsTaaFxaa(options: Options, maxTextureDimension: real, displayHdr: bool, lights: seq<Entity>)
    requires maxTextureDimension >= ShadowResolutionMin
    requires Antialiasing in options && options[Antialiasing] == AntialiasingTaaFxaa as real
    requires !(Upsampling in options && options[Upsampling] == UpsamplingLinear as real)
    ensures var r := AfterSetOption(options, Upsampling, UpsamplingLinear as real, maxTextureDimension, displayHdr, lights).options;
      r[Antialiasing] == AntialiasingTaaFxaa as real && EnumOption(r, Upsampling) != UpsamplingFsr2
  {
  }

  /** Setting the same option to the same value twice: the second call changes nothing
      and fires nothing, so cascades reach their fixed point in one step. */
  lemma SetOptionTwiceIsFixedPoint(options: Options, option: RendererOption, value: real,
                                   maxTextureDimension: real, displayHdr: bool, lights: seq<Entity>)
    requires maxTextureDimension >= ShadowResolutionMin
    ensures var first := AfterSetOption(options, option, value, maxTextureDimension, displayHdr, lights);
      AfterSetOption(first.options, option, value, maxTextureDimension, displayHdr, lights)
        == SetOptionResult(first.options, [], false)
  {
    var v := ClampedValue(option, value, maxTextureDimension);
    if SetVerdict(options, option, v, displayHdr) != HdrUnsupported {
      SetThenGet(options, option, value, maxTextureDimension, displayHdr, lights);
    }
  }

  /** Only FogVolumetric and ScreenSpaceShadows changes mark the light records dirty, and a
      ShadowResolution change refreshes exactly the shadowed lights. */
  lemma SetOptionSideEffects(options: Options, option: RendererOption, value: real,
                             maxTextureDimension: real, displayHdr: bool, lights: seq<Entity>)
    requires maxTextureDimension >= ShadowResolutionMin
    requires SetVerdict(options, option, ClampedValue(option, value, maxTextureDimension), displayHdr) == Committed
    ensures var r := AfterSetOption(options, option, value, maxTextureDimension, displayHdr, lights);
      && (r.lightsChanged <==> option == FogVolumetric || option == ScreenSpaceShadows)
      && (option == ShadowResolution ==> r.events == ShadowRefreshes(lights))
      && (option == Hdr ==> r.events == [SwapChainHdrSet(value == 1.0)])
      && (option == Vsync ==> r.events == [SwapChainVsyncSet(value == 1.0)])
  {
  }
}
