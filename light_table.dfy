/**
 * The bindless light records and the environment re-filter trigger. A lights rebuild
 * zeroes the records, then gives the i-th entity of the Light bucket index i and a
 * packed flag word. After every sync point the directional lights are compared
 * against the last appearance seen; a difference schedules the environment mips for
 * filtering.
 */
module LightTable {
  import opened RendererTypes
  import opened BindlessLayout
  import opened OptionTable

  datatype LightRecord = LightRecord(flags: bv32)

  const EmptyLightRecord := LightRecord(0)

  /** Every entity of the Light bucket carries a Light component. */
  predicate AllLights(lights: seq<Entity>)
  {
    forall i :: 0 <= i < |lights| ==> lights[i].light.Some?
  }

  /** The packed record of one light under the current global options. */
  function LightRecordOf(l: LightComponent, options: Options): LightRecord
  {
    LightRecord(LightFlagWord(l, BoolOption(options, ScreenSpaceShadows), BoolOption(options, FogVolumetric)))
  }

  /** lights::update's properties array: slot i holds the i-th light, the rest stay zeroed. */
  function LightRecords(lights: seq<Entity>, options: Options, capacity: nat): (r: seq<LightRecord>)
    requires AllLights(lights) && |lights| <= capacity
    ensures |r| == capacity
  {
    seq(capacity, i requires 0 <= i < capacity =>
      if i < |lights| then LightRecordOf(lights[i].light.value, options) else EmptyLightRecord)
  }

  /** Before any light is written the array is all empty records. */
  lemma LightRecordsNone(options: Options, capacity: nat)
    ensures LightRecords([], options, capacity) == seq(capacity, _ => EmptyLightRecord)
  {
  }

  /** Writing light i into slot i extends the array built from the first i lights. */
  lemma LightRecordsStep(lights: seq<Entity>, options: Options, capacity: nat, i: nat)
    requires AllLights(lights) && |lights| <= capacity && i < |lights|
    ensures AllLights(lights[..i]) && AllLights(lights[..i + 1])
    ensures LightRecords(lights[..i + 1], options, capacity)
         == LightRecords(lights[..i], options, capacity)[i := LightRecordOf(lights[i].light.value, options)]
  {
    assert forall k :: 0 <= k < i ==> lights[..i][k] == lights[k];
    assert forall k :: 0 <= k <= i ==> lights[..i + 1][k] == lights[k];
  }

  /** Slot i of the rebuilt array, reading bit i back as feature i: the light's type, its shadow
      flags, and screen-space shadows and volumetric only when the matching option is on;
      a slot past the last light reads as no light at all. */
  lemma LightRecordsDecode(lights: seq<Entity>, options: Options, capacity: nat, i: nat)
    requires AllLights(lights) && |lights| <= capacity && i < capacity
    ensures var bits := DecodeLightFlags(LightRecords(lights, options, capacity)[i].flags);
      if i < |lights| then
        var l := lights[i].light.value;
        bits == LightBits(l.lightType == Directional, l.lightType == Point, l.lightType == Spot,
                          l.shadows, l.shadowsTransparent,
                          l.shadowsScreenSpace && BoolOption(options, ScreenSpaceShadows),
                          l.volumetric && BoolOption(options, FogVolumetric))
      else
        bits == LightBits(false, false, false, false, false, false, false)
  {
    if i < |lights| {
      var l := lights[i].light.value;
      LightFlagsRoundTrip(l, BoolOption(options, ScreenSpaceShadows), BoolOption(options, FogVolumetric));
    }
  }

  /** Light::SetIndex over the bucket: light i records index i. */
  function LightIndices(indices: map<EntityId, nat>, lights: seq<Entity>): map<EntityId, nat>
  {
    if lights == [] then indices
    else LightIndices(indices, lights[..|lights| - 1])[lights[|lights| - 1].id := |lights| - 1]
  }

  /** The i-th light records index i (an entity listed twice keeps its last index). */
  lemma {:induction false} LightIndexIsPosition(indices: map<EntityId, nat>, lights: seq<Entity>, i: nat)
    requires i < |lights| && forall j :: i < j < |lights| ==> lights[j].id != lights[i].id
    ensures var r := LightIndices(indices, lights); lights[i].id in r && r[lights[i].id] == i
  {
    if i < |lights| - 1 {
      LightIndexIsPosition(indices, lights[..|lights| - 1], i);
    }
  }

  /** An entity outside the bucket keeps the index it had. */
  lemma {:induction false} LightIndexOutsideBucket(indices: map<EntityId, nat>, lights: seq<Entity>, id: EntityId)
    requires forall j :: 0 <= j < |lights| ==> lights[j].id != id
    ensures var r := LightIndices(indices, lights);
      (id in r <==> id in indices) && (id in indices ==> r[id] == indices[id])
  {
    if lights != [] {
      LightIndexOutsideBucket(indices, lights[..|lights| - 1], id);
    }
  }

  /** The entity carries a directional light. */
  predicate IsDirectional(e: Entity)
  {
    e.light.Some? && e.light.value.lightType == Directional
  }

  /** The directional-light scan: the appearance kept from one scan to the next, and
      whether any directional light differed from it when it was compared. */
  function TrackDirectional(tracked: LightAppearance, lights: seq<Entity>): (LightAppearance, bool)
  {
    if lights == [] then (tracked, false)
    else
      var (t, changed) := TrackDirectional(tracked, lights[..|lights| - 1]);
      var e := lights[|lights| - 1];
      if IsDirectional(e) && e.light.value.appearance != t then (e.light.value.appearance, true)
      else (t, changed)
  }

  /** The scan reports no change exactly when every directional light looks like the
      appearance kept from before. */
  lemma {:induction false} TrackUnchangedIff(tracked: LightAppearance, lights: seq<Entity>)
    ensures !TrackDirectional(tracked, lights).1 <==>
      forall i :: 0 <= i < |lights| && IsDirectional(lights[i]) ==> lights[i].light.value.appearance == tracked
    ensures !TrackDirectional(tracked, lights).1 ==> TrackDirectional(tracked, lights).0 == tracked
  {
    if lights != [] {
      var prefix := lights[..|lights| - 1];
      TrackUnchangedIff(tracked, prefix);
      assert forall i :: 0 <= i < |prefix| ==> prefix[i] == lights[i];
    }
  }

  /** After the scan the kept appearance is that of the last directional light, or the
      old one when there is none. */
  lemma {:induction false} TrackKeepsLastDirectional(tracked: LightAppearance, lights: seq<Entity>)
    ensures var kept := TrackDirectional(tracked, lights).0;
      (forall i :: 0 <= i < |lights| ==> !IsDirectional(lights[i])) ==> kept == tracked
    ensures var kept := TrackDirectional(tracked, lights).0;
      forall i :: 0 <= i < |lights| && IsDirectional(lights[i]) &&
                  (forall j :: i < j < |lights| ==> !IsDirectional(lights[j])) ==>
        kept == lights[i].light.value.appearance
  {
    if lights != [] {
      var prefix := lights[..|lights| - 1];
      TrackKeepsLastDirectional(tracked, prefix);
      assert forall i :: 0 <= i < |prefix| ==> prefix[i] == lights[i];
    }
  }

  /** When all directional lights look alike, the scan keeps their appearance, or the old
      one when there is no directional light. */
  lemma {:induction false} TrackUniform(tracked: LightAppearance, lights: seq<Entity>, a: LightAppearance)
    requires forall i :: 0 <= i < |lights| && IsDirectional(lights[i]) ==> lights[i].light.value.appearance == a
    ensures var kept := TrackDirectional(tracked, lights).0;
      kept == a || (kept == tracked && forall i :: 0 <= i < |lights| ==> !IsDirectional(lights[i]))
  {
    if lights != [] {
      var prefix := lights[..|lights| - 1];
      assert forall i :: 0 <= i < |prefix| ==> prefix[i] == lights[i];
      TrackUniform(tracked, prefix, a);
    }
  }

  /** When all directional lights look alike, a second scan over them finds nothing new. */
  lemma TrackTwiceUnchanged(tracked: LightAppearance, lights: seq<Entity>, a: LightAppearance)
    requires forall i :: 0 <= i < |lights| && IsDirectional(lights[i]) ==> lights[i].light.value.appearance == a
    ensures !TrackDirectional(TrackDirectional(tracked, lights).0, lights).1
  {
    TrackUniform(tracked, lights, a);
    TrackUnchangedIff(TrackDirectional(tracked, lights).0, lights);
  }

  /** The skysphere's mip count minus one, in 32-bit unsigned arithmetic. */
  function MipsToFilter(mipCount: nat): (r: nat)
    requires mipCount < 0x1_0000_0000
    ensures r < 0x1_0000_0000
    ensures mipCount >= 1 ==> r + 1 == mipCount
    ensures mipCount == 0 ==> r == 0xFFFF_FFFF
  {
    (mipCount + 0xFFFF_FFFF) % 0x1_0000_0000
  }
}
