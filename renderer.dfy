/**
 * The renderer's frame bookkeeping as one object: the module-level state of
 * Renderer.cpp (option table, staging list, renderable buckets, active camera, mip
 * queue, resource counter, bindless material and light arrays, dirty flags,
 * resolutions and viewport) become the fields of `Renderer`, and the functions that
 * update that state become its methods. Calls into the GPU device, swap chain and
 * FidelityFX are appended to `events` instead of being performed.
 */
module Rendering {
  import opened RendererTypes
  import opened Classification
  import opened OptionTable
  import opened BindlessLayout
  import opened MaterialTable
  import opened LightTable
  import opened FrameCounter

  /** One Pass_GenerateMips per queued texture, in queue order. */
  function MipEvents(queue: seq<TextureId>): (r: seq<Event>)
    ensures |r| == |queue|
    ensures forall i :: 0 <= i < |queue| ==> r[i] == MipsGenerated(queue[i])
  {
    if queue == [] then [] else MipEvents(queue[..|queue| - 1]) + [MipsGenerated(queue[|queue| - 1])]
  }

  /** What the sync-point branch asks of the device: a deletion-queue parse when one is
      pending, then the reset of every buffer with dynamic offsets. */
  function SyncPointEvents(isSyncPoint: bool, deletionQueueNeedsParse: bool): (r: seq<Event>)
    ensures DynamicOffsetsReset in r <==> isSyncPoint
    ensures DeletionQueueParsed in r <==> isSyncPoint && deletionQueueNeedsParse
    ensures |r| <= 2
    ensures isSyncPoint ==> r[|r| - 1] == DynamicOffsetsReset
    ensures isSyncPoint && deletionQueueNeedsParse ==> r[0] == DeletionQueueParsed
  {
    if !isSyncPoint then []
    else (if deletionQueueNeedsParse then [DeletionQueueParsed] else []) + [DynamicOffsetsReset]
  }

  class Renderer {
    /** resources_frame_lifetime */
    const frameLifetime: nat
    /** rhi_max_array_size */
    const arraySize: nat
    /** material_texture_count_support, material_texture_type_count, material_texture_count_per_type */
    const materialStride: nat
    const textureTypeCount: nat
    const texturesPerType: nat
    /** RHI_Device::PropertyGetMaxTexture2dDimension */
    const maxTextureDimension: real

    const materialProperties: array<MaterialRecord>
    const materialTextures: array<Option<TextureId>>
    const lightProperties: array<LightRecord>

    var options: Options
    var entitiesToAdd: seq<Entity>
    var renderables: Buckets
    var camera: Option<Entity>
    var sorted: bool
    var materialsDirty: bool
    var lightsDirty: bool
    var materialIndex: nat
    var uniqueMaterialIds: set<MaterialId>
    /** The index each material last recorded with SetIndex. */
    var materialSlots: map<MaterialId, nat>
    /** The index each light entity last recorded with SetIndex. */
    var lightSlots: map<EntityId, nat>
    var mipQueue: seq<TextureId>
    var resourceIndex: nat
    /** The function-static rotation, intensity and colour of the directional-light check. */
    var trackedDirectional: LightAppearance
    var environmentMipsToFilter: nat
    var renderWidth: nat
    var renderHeight: nat
    var outputWidth: nat
    var outputHeight: nat
    var viewportWidth: real
    var viewportHeight: real
    var dirtyOrthographicProjection: bool
    var events: seq<Event>

    function TexturesPerMaterial(): nat
    {
      textureTypeCount * texturesPerType
    }

    ghost predicate Valid()
      reads this`resourceIndex, this`renderables
    {
      && 1 <= frameLifetime && resourceIndex < frameLifetime
      && 1 <= textureTypeCount && 1 <= texturesPerType && TexturesPerMaterial() <= materialStride
      && maxTextureDimension >= ShadowResolutionMin
      && materialProperties.Length == arraySize
      && materialTextures.Length == arraySize
      && lightProperties.Length == arraySize
      && AllLights(Bucket(renderables, Light))
    }

    /** The bindless material state as a value. */
    ghost function MaterialState(): MaterialTables
      reads this`materialIndex, this`uniqueMaterialIds, this`materialSlots, materialProperties, materialTextures
    {
      MaterialTables(materialProperties[..], materialTextures[..], materialIndex, uniqueMaterialIds, materialSlots)
    }

    /** The buckets the next sync point works with: the promoted staging list if there is one. */
    ghost function PendingRenderables(): Buckets
      reads this`entitiesToAdd, this`renderables
    {
      if entitiesToAdd != [] then Promoted(entitiesToAdd) else renderables
    }

    constructor (frameLifetime: nat, arraySize: nat, materialStride: nat, textureTypeCount: nat,
                 texturesPerType: nat, maxTextureDimension: real, initialDirectional: LightAppearance)
      requires 1 <= frameLifetime && 1 <= textureTypeCount && 1 <= texturesPerType
      requires textureTypeCount * texturesPerType <= materialStride
      requires maxTextureDimension >= ShadowResolutionMin
      ensures Valid()
      ensures fresh(materialProperties) && fresh(materialTextures) && fresh(lightProperties)
      ensures this.frameLifetime == frameLifetime && this.arraySize == arraySize
      ensures this.materialStride == materialStride && this.textureTypeCount == textureTypeCount
      ensures this.texturesPerType == texturesPerType && this.maxTextureDimension == maxTextureDimension
      ensures MaterialState() == Cleared(arraySize, map[])
      ensures lightProperties[..] == seq(arraySize, _ => EmptyLightRecord)
      ensures options == map[] && entitiesToAdd == [] && renderables == map[] && camera == None
      ensures !sorted && materialsDirty && lightsDirty && lightSlots == map[] && mipQueue == []
      ensures resourceIndex == 0 && trackedDirectional == initialDirectional && environmentMipsToFilter == 0
      ensures renderWidth == 0 && renderHeight == 0 && outputWidth == 0 && outputHeight == 0
      ensures viewportWidth == 0.0 && viewportHeight == 0.0 && dirtyOrthographicProjection
      ensures events == []
    {
      this.frameLifetime := frameLifetime;
      this.arraySize := arraySize;
      this.materialStride := materialStride;
      this.textureTypeCount := textureTypeCount;
      this.texturesPerType := texturesPerType;
      this.maxTextureDimension := maxTextureDimension;
      materialProperties := new MaterialRecord[arraySize](_ => EmptyMaterialRecord);
      materialTextures := new Option<TextureId>[arraySize](_ => None);
      lightProperties := new LightRecord[arraySize](_ => EmptyLightRecord);
      options := map[];
      entitiesToAdd := [];
      renderables := map[];
      camera := None;
      sorted := false;
      materialsDirty := true;
      lightsDirty := true;
      materialIndex := 0;
      uniqueMaterialIds := {};
      materialSlots := map[];
      lightSlots := map[];
      mipQueue := [];
      resourceIndex := 0;
      trackedDirectional := initialDirectional;
      environmentMipsToFilter := 0;
      renderWidth, renderHeight, outputWidth, outputHeight := 0, 0, 0, 0;
      viewportWidth, viewportHeight := 0.0, 0.0;
      dirtyOrthographicProjection := true;
      events := [];
    }

    /** SetOption: clamp, skip a value already stored, reject HDR on a display without
        it, then store and apply the cascade and its side effects. */
    method SetOption(option: RendererOption, value: real, displayHdr: bool)
      requires Valid()
      modifies this`options, this`events, this`lightsDirty
      ensures Valid()
      ensures var r := AfterSetOption(old(options), option, value, maxTextureDimension, displayHdr, Bucket(renderables, Light));
        && options == r.options
        && events == old(events) + r.events
        && lightsDirty == (old(lightsDirty) || r.lightsChanged)
    {
      var v := value;
      if option == Anisotropy {
        v := Clamp(value, 0.0, AnisotropyMax);
      } else if option == ShadowResolution {
        v := Clamp(value, ShadowResolutionMin, maxTextureDimension);
      }
      assert v == ClampedValue(option, value, maxTextureDimension);

      if option in options && options[option] == v {
        return;
      }

      if option == Hdr {
        if v == 1.0 && !displayHdr {
          return;
        }
      }

      CommitOption(option, value, v, displayHdr);
    }

    /** The second half of SetOption, once the value is known to change: store it, then
        the cascade or the option's own side effect, then LightOnChanged. */
    method CommitOption(option: RendererOption, value: real, v: real, displayHdr: bool)
      requires Valid()
      requires v == ClampedValue(option, value, maxTextureDimension)
      requires SetVerdict(options, option, v, displayHdr) == Committed
      modifies this`options, this`events, this`lightsDirty
      ensures Valid()
      ensures var r := AfterSetOption(old(options), option, value, maxTextureDimension, displayHdr, Bucket(renderables, Light));
        && options == r.options
        && events == old(events) + r.events
        && lightsDirty == (old(lightsDirty) || r.lightsChanged)
    {
      options := options[option := v];

      if option == Antialiasing || option == Upsampling {
        ApplyCascade(option, v);
      } else if option == ShadowResolution {
        RefreshShadowMaps();
      } else if option == Hdr {
        events := events + [SwapChainHdrSet(v == 1.0)];
      } else if option == Vsync {
        events := events + [SwapChainVsyncSet(v == 1.0)];
      }

      if option == FogVolumetric || option == ScreenSpaceShadows {
        lightsDirty := true;
      }
    }

    /** The Antialiasing and Upsampling rules of SetOption, applied after the option itself
        was stored: each writes at most the other option, straight into the table. */
    method ApplyCascade(option: RendererOption, v: real)
      requires option == Antialiasing || option == Upsampling
      modifies this`options, this`events
      ensures options == Cascade(old(options), option, v).0
      ensures events == old(events) + if Cascade(old(options), option, v).1 then [Fsr2HistoryReset] else []
    {
      if option == Antialiasing {
        var taaEnabled := v == AntialiasingTaa as real || v == AntialiasingTaaFxaa as real;
        var fsrEnabled := EnumOption(options, Upsampling) == UpsamplingFsr2;
        if taaEnabled {
          if !fsrEnabled {
            options := options[Upsampling := UpsamplingFsr2 as real];
            events := events + [Fsr2HistoryReset];
          }
        } else {
          if fsrEnabled {
            options := options[Upsampling := UpsamplingLinear as real];
          }
        }
      } else {
        var taaEnabled := EnumOption(options, Antialiasing) == AntialiasingTaa;
        if v == UpsamplingLinear as real {
          if taaEnabled {
            options := options[Antialiasing := AntialiasingDisabled as real];
          }
        } else if v == UpsamplingFsr2 as real {
          if !taaEnabled {
            options := options[Antialiasing := AntialiasingTaa as real];
            events := events + [Fsr2HistoryReset];
          }
        }
      }
    }

    /** The ShadowResolution rule of SetOption: every light with shadows refreshes its map. */
    method RefreshShadowMaps()
      requires Valid()
      modifies this`events
      ensures events == old(events) + ShadowRefreshes(Bucket(renderables, Light))
    {
      var lights := Bucket(renderables, Light);
      for i := 0 to |lights|
        invariant events == old(events) + ShadowRefreshes(lights[..i])
      {
        assert lights[..i + 1][..i] == lights[..i];
        if lights[i].light.value.shadows {
          events := events + [ShadowMapRefreshed(lights[i].id)];
        }
      }
      assert lights[..|lights|] == lights;
    }

    /** OnWorldResolved: the staging list becomes the recursively active entities. */
    method OnWorldResolved(entities: seq<Entity>)
      requires Valid()
      modifies this`entitiesToAdd
      ensures Valid()
      ensures entitiesToAdd == ActiveEntities(entities)
    {
      entitiesToAdd := [];
      for i := 0 to |entities|
        modifies this`entitiesToAdd
        invariant entitiesToAdd == ActiveEntities(entities[..i])
      {
        assert entities[..i + 1][..i] == entities[..i];
        if entities[i].activeRecursively {
          entitiesToAdd := entitiesToAdd + [entities[i]];
        }
      }
      assert entities[..|entities|] == entities;
    }

    /** OnClear: every bucket empty. */
    method OnClear()
      requires Valid()
      modifies this`renderables
      ensures Valid()
      ensures forall c :: Bucket(renderables, c) == []
    {
      renderables := map[];
    }

    method AddTextureForMipGeneration(texture: TextureId)
      requires Valid()
      modifies this`mipQueue
      ensures Valid()
      ensures mipQueue == old(mipQueue) + [texture]
    {
      mipQueue := mipQueue + [texture];
    }

    /** SetViewport: the new size, and the orthographic projection marked dirty when it changed. */
    method SetViewport(width: real, height: real)
      requires width != 0.0 && height != 0.0
      requires Valid()
      modifies this`viewportWidth, this`viewportHeight, this`dirtyOrthographicProjection
      ensures Valid()
      ensures viewportWidth == width && viewportHeight == height
      ensures dirtyOrthographicProjection ==
        (old(dirtyOrthographicProjection) || old(viewportWidth) != width || old(viewportHeight) != height)
    {
      if viewportWidth != width || viewportHeight != height {
        viewportWidth := width;
        viewportHeight := height;
        dirtyOrthographicProjection := true;
      }
    }

    /** SetResolutionRender: refused when the device rejects it or it exceeds the output
        resolution, a no-op when already set; otherwise stored, with render targets and
        samplers recreated on request and the display mode registered. */
    method SetResolutionRender(width: nat, height: nat, validResolution: bool, recreateResources: bool)
      requires Valid()
      modifies this`renderWidth, this`renderHeight, this`events
      ensures Valid()
      ensures var accepted := validResolution && width <= outputWidth && height <= outputHeight
                              && !(old(renderWidth) == width && old(renderHeight) == height);
        && (renderWidth, renderHeight) == (if accepted then (width, height) else (old(renderWidth), old(renderHeight)))
        && events == old(events) + (if accepted
                                      then (if recreateResources then [RenderResourcesRecreated] else [])
                                           + [DisplayModeRegistered(width, height)]
                                      else [])
    {
      if !validResolution {
        return;
      }
      if width > outputWidth || height > outputHeight {
        return;
      }
      if renderWidth == width && renderHeight == height {
        return;
      }
      renderWidth, renderHeight := width, height;
      if recreateResources {
        events := events + [RenderResourcesRecreated];
      }
      events := events + [DisplayModeRegistered(width, height)];
    }

    /** SetResolutionOutput: refused when the device rejects it, a no-op when already set;
        otherwise stored, with render targets and samplers recreated on request. */
    method SetResolutionOutput(width: nat, height: nat, validResolution: bool, recreateResources: bool)
      requires Valid()
      modifies this`outputWidth, this`outputHeight, this`events
      ensures Valid()
      ensures var accepted := validResolution && !(old(outputWidth) == width && old(outputHeight) == height);
        && (outputWidth, outputHeight) == (if accepted then (width, height) else (old(outputWidth), old(outputHeight)))
        && events == old(events) + (if accepted && recreateResources then [RenderResourcesRecreated] else [])
    {
      if !validResolution {
        return;
      }
      if outputWidth == width && outputHeight == height {
        return;
      }
      outputWidth, outputHeight := width, height;
      if recreateResources {
        events := events + [RenderResourcesRecreated];
      }
    }

    /** The promotion step of OnSyncPoint. */
    method PromotePending()
      requires Valid()
      modifies this`renderables, this`camera, this`entitiesToAdd, this`sorted, this`materialsDirty, this`lightsDirty
      ensures Valid()
      ensures entitiesToAdd == [] && renderables == old(PendingRenderables())
      ensures old(entitiesToAdd) == [] ==>
        camera == old(camera) && sorted == old(sorted)
        && materialsDirty == old(materialsDirty) && lightsDirty == old(lightsDirty)
      ensures old(entitiesToAdd) != [] ==>
        camera == LastCamera(old(entitiesToAdd)) && !sorted && materialsDirty && lightsDirty
      ensures MaterialState() == old(MaterialState()) && lightProperties[..] == old(lightProperties[..])
    {
      if entitiesToAdd != [] {
        var staged := entitiesToAdd;
        renderables := map[];
        camera := None;
        for i := 0 to |staged|
          modifies this`renderables, this`camera
          invariant renderables == Promoted(staged[..i])
          invariant camera == LastCamera(staged[..i])
        {
          assert staged[..i + 1][..i] == staged[..i];
          PromoteEntity(staged[i]);
        }
        assert staged[..|staged|] == staged;
        var lights := Bucket(renderables, Light);
        forall i | 0 <= i < |lights| ensures lights[i].light.Some? {
          PromotedMembership(staged, Light, lights[i]);
        }
        entitiesToAdd := [];
        sorted := false;
        materialsDirty := true;
        lightsDirty := true;
      }
    }

    /** One staged entity: its geometry bucket (none when its material's alpha is 0), then
        Light, Camera (which also becomes the active camera) and AudioSource. */
    method PromoteEntity(entity: Entity)
      modifies this`renderables, this`camera
      ensures renderables == AddEntity(old(renderables), entity)
      ensures camera == if entity.camera then Some(entity) else old(camera)
    {
      ghost var r0 := renderables;
      if entity.renderable.Some? {
        var renderable := entity.renderable.value;
        var isTransparent := false;
        var isVisible := true;
        if renderable.material.Some? {
          isTransparent := renderable.material.value.alpha < 1.0;
          isVisible := renderable.material.value.alpha != 0.0;
        }
        if isVisible {
          var bucket := if isTransparent
            then (if renderable.instancing then GeometryTransparentInstanced else GeometryTransparent)
            else (if renderable.instancing then GeometryInstanced else Geometry);
          assert GeometryBucket(renderable) == Some(bucket);
          renderables := Append(renderables, bucket, entity);
        } else {
          assert GeometryBucket(renderable) == None;
        }
      }
      ghost var r1 := renderables;
      assert r1 == if entity.renderable.Some? && GeometryBucket(entity.renderable.value).Some?
                   then Append(r0, GeometryBucket(entity.renderable.value).value, entity) else r0;
      if entity.light.Some? {
        renderables := Append(renderables, Light, entity);
      }
      ghost var r2 := renderables;
      assert r2 == if entity.light.Some? then Append(r1, Light, entity) else r1;
      if entity.camera {
        renderables := Append(renderables, Camera, entity);
        camera := Some(entity);
      }
      assert renderables == if entity.camera then Append(r2, Camera, entity) else r2;
      if entity.audioSource {
        renderables := Append(renderables, AudioSource, entity);
      }
    }

    /** The mip step of OnSyncPoint: every queued texture gets its mips, then the queue empties. */
    method GenerateQueuedMips()
      requires Valid()
      modifies this`mipQueue, this`events
      ensures Valid()
      ensures mipQueue == [] && events == old(events) + MipEvents(old(mipQueue))
      ensures MaterialState() == old(MaterialState()) && lightProperties[..] == old(lightProperties[..])
    {
      var queue := mipQueue;
      for i := 0 to |queue|
        modifies this`events
        invariant events == old(events) + MipEvents(queue[..i])
      {
        assert queue[..i + 1][..i] == queue[..i];
        events := events + [MipsGenerated(queue[i])];
      }
      assert queue[..|queue|] == queue;
      mipQueue := [];
    }

    /** The resource counter step of OnSyncPoint, reporting whether this is a sync point. */
    method AdvanceResourceIndex(deletionQueueNeedsParse: bool) returns (isSyncPoint: bool)
      requires Valid()
      modifies this`resourceIndex, this`events
      ensures Valid()
      ensures (resourceIndex, isSyncPoint) == Tick(old(resourceIndex), frameLifetime)
      ensures events == old(events) + SyncPointEvents(isSyncPoint, deletionQueueNeedsParse)
      ensures MaterialState() == old(MaterialState()) && lightProperties[..] == old(lightProperties[..])
    {
      resourceIndex := resourceIndex + 1;
      isSyncPoint := resourceIndex == frameLifetime;
      if isSyncPoint {
        resourceIndex := 0;
        if deletionQueueNeedsParse {
          events := events + [DeletionQueueParsed];
        }
        events := events + [DynamicOffsetsReset];
      }
    }

    /** materials::clear */
    method ClearMaterials()
      requires Valid()
      modifies materialProperties, materialTextures, this`uniqueMaterialIds, this`materialIndex
      ensures Valid()
      ensures MaterialState() == Cleared(arraySize, old(materialSlots))
    {
      for j := 0 to arraySize
        modifies materialProperties
        invariant forall k :: 0 <= k < j ==> materialProperties[k] == EmptyMaterialRecord
      {
        materialProperties[j] := EmptyMaterialRecord;
      }
      for j := 0 to arraySize
        modifies materialTextures
        invariant forall k :: 0 <= k < arraySize ==> materialProperties[k] == EmptyMaterialRecord
        invariant forall k :: 0 <= k < j ==> materialTextures[k] == None
      {
        materialTextures[j] := None;
      }
      uniqueMaterialIds := {};
      materialIndex := 0;
      assert materialProperties[..] == seq(arraySize, _ => EmptyMaterialRecord);
      assert materialTextures[..] == seq(arraySize, _ => None);
    }

    /** materials::update for one material: flag word into the current slot, its textures
        type by type and variation by variation, SetIndex, then one stride on. */
    method UpdateMaterial(material: Material)
      requires Valid()
      requires materialIndex + TexturesPerMaterial() <= arraySize
      modifies materialProperties, materialTextures, this`materialIndex, this`materialSlots
      ensures Valid()
      ensures MaterialState() == AddMaterial(old(MaterialState()), material, materialStride, TexturesPerMaterial())
    {
      if material.id in uniqueMaterialIds {
        return;
      }
      ghost var before := MaterialState();
      var index := materialIndex;
      var record := FlaggedRecord(materialProperties[index], material.features);
      materialProperties[index] := record;
      assert materialProperties[..] == before.properties[index := record];
      WriteMaterialTextures(index, material);
      materialSlots := materialSlots[material.id := index];
      materialIndex := index + materialStride;
      ghost var after := MaterialTables(before.properties[index := record],
                                        WriteTextures(before.textures, index, material, TexturesPerMaterial()),
                                        index + materialStride, before.uniqueIds, before.slots[material.id := index]);
      assert MaterialState() == after;
      assert AddMaterial(before, material, materialStride, TexturesPerMaterial()) == after;
    }

    /** The texture half of materials::update: for every texture type and variation, the
        material's texture goes to slot index + type * count per type + variation. */
    method WriteMaterialTextures(index: nat, material: Material)
      requires Valid()
      requires index + TexturesPerMaterial() <= arraySize
      modifies materialTextures
      ensures materialTextures[..] == WriteTextures(old(materialTextures[..]), index, material, TexturesPerMaterial())
    {
      ghost var written := 0;
      for kind := 0 to textureTypeCount
        invariant written == kind * texturesPerType
        invariant forall j :: 0 <= j < arraySize ==>
          materialTextures[j] == if index <= j < index + written then TextureAt(material, j - index) else old(materialTextures[j])
      {
        for variation := 0 to texturesPerType
          invariant written == kind * texturesPerType + variation
          invariant forall j :: 0 <= j < arraySize ==>
            materialTextures[j] == if index <= j < index + written then TextureAt(material, j - index) else old(materialTextures[j])
        {
          var textureIndex := kind * texturesPerType + variation;
          SlotInBlock(kind, variation, textureTypeCount, texturesPerType);
          materialTextures[index + textureIndex] := TextureAt(material, textureIndex);
          written := written + 1;
        }
        assert (kind + 1) * texturesPerType == kind * texturesPerType + texturesPerType;
      }
      assert materialTextures[..] == WriteTextures(old(materialTextures[..]), index, material, TexturesPerMaterial());
    }

    /** materials::update over one bucket: the material of every entity that has one. */
    method UpdateMaterialsFrom(entities: seq<Entity>)
      requires Valid() && uniqueMaterialIds == {}
      requires MaterialsFit(materialIndex, |MaterialsOf(entities)|, materialStride, TexturesPerMaterial(), arraySize)
      modifies materialProperties, materialTextures, this`materialIndex, this`materialSlots
      ensures Valid() && uniqueMaterialIds == {}
      ensures MaterialState() == AddMaterials(old(MaterialState()), MaterialsOf(entities), materialStride, TexturesPerMaterial())
    {
      ghost var start := MaterialState();
      for i := 0 to |entities|
        invariant Valid() && uniqueMaterialIds == {}
        invariant MaterialsFit(start.index, |MaterialsOf(entities[..i])|, materialStride, TexturesPerMaterial(), arraySize)
        invariant MaterialState() == AddMaterials(start, MaterialsOf(entities[..i]), materialStride, TexturesPerMaterial())
      {
        ghost var before := MaterialsOf(entities[..i]);
        MaterialsOfPrefix(entities, i);
        FitPrefix(start.index, |MaterialsOf(entities[..i + 1])|, |MaterialsOf(entities)|,
                  materialStride, TexturesPerMaterial(), arraySize);
        var entity := entities[i];
        if entity.renderable.Some? {
          if entity.renderable.value.material.Some? {
            var material := entity.renderable.value.material.value;
            FitPrefix(start.index, |before|, |MaterialsOf(entities)|, materialStride, TexturesPerMaterial(), arraySize);
            ghost var mid := MaterialState();
            UpdateMaterial(material);
            ghost var after := before + [material];
            assert after[..|after| - 1] == before && after[|after| - 1] == material;
            assert AddMaterials(start, after, materialStride, TexturesPerMaterial())
                == AddMaterial(mid, material, materialStride, TexturesPerMaterial());
          } else {
            assert before + [] == before;
          }
        } else {
          assert before + [] == before;
        }
      }
      assert entities[..|entities|] == entities;
    }

    /** One `update(renderables[...])` call of materials::update, continuing the rebuild
        from the cleared tables after the materials of the buckets before it. */
    method UpdateBucket(entities: seq<Entity>, ghost cleared: MaterialTables, ghost done: seq<Material>)
      requires Valid() && uniqueMaterialIds == {}
      requires |cleared.properties| == |cleared.textures| == arraySize && cleared.uniqueIds == {}
      requires MaterialsFit(cleared.index, |done|, materialStride, TexturesPerMaterial(), arraySize)
      requires MaterialsFit(cleared.index, |done + MaterialsOf(entities)|, materialStride, TexturesPerMaterial(), arraySize)
      requires MaterialState() == AddMaterials(cleared, done, materialStride, TexturesPerMaterial())
      modifies materialProperties, materialTextures, this`materialIndex, this`materialSlots
      ensures Valid() && uniqueMaterialIds == {}
      ensures MaterialState() == AddMaterials(cleared, done + MaterialsOf(entities), materialStride, TexturesPerMaterial())
    {
      var next := MaterialsOf(entities);
      NextBucketFits(cleared, done, next, |done + next|, materialStride, TexturesPerMaterial());
      UpdateMaterialsFrom(entities);
    }

    /** Two consecutive `update(renderables[...])` calls of materials::update. */
    method UpdateBucketPair(first: seq<Entity>, second: seq<Entity>, ghost cleared: MaterialTables,
                            ghost done: seq<Material>, ghost total: nat)
      requires Valid() && uniqueMaterialIds == {}
      requires |cleared.properties| == |cleared.textures| == arraySize && cleared.uniqueIds == {}
      requires |done| + |MaterialsOf(first)| + |MaterialsOf(second)| <= total
      requires MaterialsFit(cleared.index, total, materialStride, TexturesPerMaterial(), arraySize)
      requires MaterialsFit(cleared.index, |done|, materialStride, TexturesPerMaterial(), arraySize)
      requires MaterialState() == AddMaterials(cleared, done, materialStride, TexturesPerMaterial())
      modifies materialProperties, materialTextures, this`materialIndex, this`materialSlots
      ensures Valid() && uniqueMaterialIds == {}
      ensures MaterialsFit(cleared.index, |done + MaterialsOf(first) + MaterialsOf(second)|,
                           materialStride, TexturesPerMaterial(), arraySize)
      ensures MaterialState()
           == AddMaterials(cleared, done + MaterialsOf(first) + MaterialsOf(second), materialStride, TexturesPerMaterial())
    {
      var x, y := MaterialsOf(first), MaterialsOf(second);
      NextBucketFits(cleared, done, x, total, materialStride, TexturesPerMaterial());
      UpdateBucket(first, cleared, done);
      NextBucketFits(cleared, done + x, y, total, materialStride, TexturesPerMaterial());
      UpdateBucket(second, cleared, done + x);
    }

    /** materials::update over the renderable set: clear, then the four geometry buckets in order. */
    method UpdateMaterials()
      requires Valid()
      requires MaterialsFit(0, |MaterialOrder(renderables)|, materialStride, TexturesPerMaterial(), arraySize)
      modifies materialProperties, materialTextures, this`uniqueMaterialIds, this`materialIndex, this`materialSlots
      ensures Valid() && uniqueMaterialIds == {}
      ensures MaterialState()
           == AddMaterials(Cleared(arraySize, old(materialSlots)), MaterialOrder(renderables), materialStride, TexturesPerMaterial())
    {
      ClearMaterials();
      ghost var cleared := MaterialState();
      ghost var total := |MaterialOrder(renderables)|;
      UpdateBucketPair(Bucket(renderables, Geometry), Bucket(renderables, GeometryInstanced), cleared, [], total);
      ghost var front := MaterialsOf(Bucket(renderables, Geometry)) + MaterialsOf(Bucket(renderables, GeometryInstanced));
      assert [] + MaterialsOf(Bucket(renderables, Geometry)) == MaterialsOf(Bucket(renderables, Geometry));
      UpdateBucketPair(Bucket(renderables, GeometryTransparent), Bucket(renderables, GeometryTransparentInstanced),
                       cleared, front, total);
      assert front + MaterialsOf(Bucket(renderables, GeometryTransparent))
                    + MaterialsOf(Bucket(renderables, GeometryTransparentInstanced)) == MaterialOrder(renderables);
    }

    /** lights::update: zero every record, then light i gets index i and its packed flags. */
    method UpdateLights()
      requires Valid()
      requires |Bucket(renderables, Light)| <= arraySize
      modifies lightProperties, this`lightSlots
      ensures Valid()
      ensures lightProperties[..] == LightRecords(Bucket(renderables, Light), options, arraySize)
      ensures lightSlots == LightIndices(old(lightSlots), Bucket(renderables, Light))
    {
      var lights := Bucket(renderables, Light);
      for j := 0 to arraySize
        modifies lightProperties
        invariant forall k :: 0 <= k < j ==> lightProperties[k] == EmptyLightRecord
      {
        lightProperties[j] := EmptyLightRecord;
      }
      LightRecordsNone(options, arraySize);
      assert lightProperties[..] == LightRecords(lights[..0], options, arraySize);
      var index := 0;
      for i := 0 to |lights|
        modifies lightProperties, this`lightSlots
        invariant index == i
        invariant lightSlots == LightIndices(old(lightSlots), lights[..i])
        invariant AllLights(lights[..i]) && lightProperties[..] == LightRecords(lights[..i], options, arraySize)
      {
        assert lights[..i + 1][..i] == lights[..i];
        LightRecordsStep(lights, options, arraySize, i);
        var light := lights[i].light.value;
        lightSlots := lightSlots[lights[i].id := index];
        lightProperties[index] := LightRecord(LightFlagWord(light, BoolOption(options, ScreenSpaceShadows),
                                                                   BoolOption(options, FogVolumetric)));
        index := index + 1;
      }
      assert lights[..|lights|] == lights;
    }

    /** The first half of a sync-point pass: promotion of the staged entities, the mip
        drain and the resource counter with its sync-point branch. */
    method BeginSyncPoint(deletionQueueNeedsParse: bool)
      requires Valid()
      modifies this`renderables, this`camera, this`entitiesToAdd, this`sorted, this`materialsDirty,
               this`lightsDirty, this`mipQueue, this`events, this`resourceIndex
      ensures Valid()
      ensures renderables == old(PendingRenderables()) && entitiesToAdd == [] && mipQueue == []
      ensures camera == if old(entitiesToAdd) != [] then LastCamera(old(entitiesToAdd)) else old(camera)
      ensures sorted == (old(sorted) && old(entitiesToAdd) == [])
      ensures materialsDirty == (old(materialsDirty) || old(entitiesToAdd) != [])
      ensures lightsDirty == (old(lightsDirty) || old(entitiesToAdd) != [])
      ensures resourceIndex == Tick(old(resourceIndex), frameLifetime).0
      ensures events == old(events) + MipEvents(old(mipQueue))
        + SyncPointEvents(Tick(old(resourceIndex), frameLifetime).1, deletionQueueNeedsParse)
      ensures MaterialState() == old(MaterialState()) && lightProperties[..] == old(lightProperties[..])
      ensures lightSlots == old(lightSlots) && options == old(options)
      ensures trackedDirectional == old(trackedDirectional) && environmentMipsToFilter == old(environmentMipsToFilter)
    {
      PromotePending();
      GenerateQueuedMips();
      var isSyncPoint := AdvanceResourceIndex(deletionQueueNeedsParse);
    }

    /** The bindless work of a sync-point pass over the current renderables: the dirty
        rebuilds and uploads, then the directional-light check. */
    method UpdateBindless(mipCount: nat)
      requires Valid()
      requires mipCount < 0x1_0000_0000
      requires materialsDirty ==>
        MaterialsFit(0, |MaterialOrder(renderables)|, materialStride, TexturesPerMaterial(), arraySize)
      requires lightsDirty ==> |Bucket(renderables, Light)| <= arraySize
      modifies materialProperties, materialTextures, lightProperties, this`uniqueMaterialIds,
               this`materialIndex, this`materialSlots, this`lightSlots, this`materialsDirty,
               this`lightsDirty, this`events, this`trackedDirectional, this`environmentMipsToFilter
      ensures Valid() && !materialsDirty && !lightsDirty
      ensures renderables == old(renderables) && camera == old(camera) && sorted == old(sorted)
      ensures entitiesToAdd == old(entitiesToAdd) && mipQueue == old(mipQueue) && resourceIndex == old(resourceIndex)
      ensures MaterialState() == if old(materialsDirty)
        then AddMaterials(Cleared(arraySize, old(materialSlots)), MaterialOrder(renderables), materialStride, TexturesPerMaterial())
        else old(MaterialState())
      ensures lightProperties[..] == if old(lightsDirty)
        then LightRecords(Bucket(renderables, Light), options, arraySize) else old(lightProperties[..])
      ensures lightSlots == if old(lightsDirty) then LightIndices(old(lightSlots), Bucket(renderables, Light)) else old(lightSlots)
      ensures var (kept, changed) := TrackDirectional(old(trackedDirectional), Bucket(renderables, Light));
        && trackedDirectional == kept
        && environmentMipsToFilter == if changed then MipsToFilter(mipCount) else old(environmentMipsToFilter)
      ensures events == old(events) + (if old(materialsDirty) then [MaterialsUploaded] else [])
        + (if old(lightsDirty) then [LightsUploaded] else [])
    {
      UploadMaterialsIfDirty();
      UploadLightsIfDirty();
      TrackDirectionalLight(mipCount);
    }

    /** The materials half of the bindless work: rebuild and upload when dirty. */
    method UploadMaterialsIfDirty()
      requires Valid()
      requires materialsDirty ==>
        MaterialsFit(0, |MaterialOrder(renderables)|, materialStride, TexturesPerMaterial(), arraySize)
      modifies materialProperties, materialTextures, this`uniqueMaterialIds, this`materialIndex,
               this`materialSlots, this`materialsDirty, this`events
      ensures Valid() && !materialsDirty
      ensures MaterialState() == if old(materialsDirty)
        then AddMaterials(Cleared(arraySize, old(materialSlots)), MaterialOrder(renderables), materialStride, TexturesPerMaterial())
        else old(MaterialState())
      ensures events == old(events) + if old(materialsDirty) then [MaterialsUploaded] else []
      ensures lightProperties[..] == old(lightProperties[..])
      ensures renderables == old(renderables) && camera == old(camera) && sorted == old(sorted) && options == old(options)
      ensures entitiesToAdd == old(entitiesToAdd) && mipQueue == old(mipQueue) && resourceIndex == old(resourceIndex)
      ensures lightsDirty == old(lightsDirty) && lightSlots == old(lightSlots)
      ensures trackedDirectional == old(trackedDirectional) && environmentMipsToFilter == old(environmentMipsToFilter)
    {
      if materialsDirty {
        UpdateMaterials();
        events := events + [MaterialsUploaded];
        materialsDirty := false;
      }
    }

    /** The lights half of the bindless work: rebuild and upload when dirty. */
    method UploadLightsIfDirty()
      requires Valid()
      requires lightsDirty ==> |Bucket(renderables, Light)| <= arraySize
      modifies lightProperties, this`lightSlots, this`lightsDirty, this`events
      ensures Valid() && !lightsDirty
      ensures lightProperties[..] == if old(lightsDirty)
        then LightRecords(Bucket(renderables, Light), options, arraySize) else old(lightProperties[..])
      ensures lightSlots == if old(lightsDirty) then LightIndices(old(lightSlots), Bucket(renderables, Light)) else old(lightSlots)
      ensures events == old(events) + if old(lightsDirty) then [LightsUploaded] else []
      ensures MaterialState() == old(MaterialState())
      ensures renderables == old(renderables) && camera == old(camera) && sorted == old(sorted) && options == old(options)
      ensures entitiesToAdd == old(entitiesToAdd) && mipQueue == old(mipQueue) && resourceIndex == old(resourceIndex)
      ensures materialsDirty == old(materialsDirty)
      ensures trackedDirectional == old(trackedDirectional) && environmentMipsToFilter == old(environmentMipsToFilter)
    {
      if lightsDirty {
        UpdateLights();
        events := events + [LightsUploaded];
        lightsDirty := false;
      }
    }

    /** The environment re-filter check: each directional light that differs from the
        appearance last seen becomes the one seen and schedules mipCount - 1 mips. */
    method TrackDirectionalLight(mipCount: nat)
      requires Valid()
      requires mipCount < 0x1_0000_0000
      modifies this`trackedDirectional, this`environmentMipsToFilter
      ensures Valid()
      ensures var (kept, changed) := TrackDirectional(old(trackedDirectional), Bucket(renderables, Light));
        && trackedDirectional == kept
        && environmentMipsToFilter == if changed then MipsToFilter(mipCount) else old(environmentMipsToFilter)
      ensures MaterialState() == old(MaterialState()) && lightProperties[..] == old(lightProperties[..])
      ensures renderables == old(renderables) && camera == old(camera) && sorted == old(sorted) && options == old(options)
      ensures entitiesToAdd == old(entitiesToAdd) && mipQueue == old(mipQueue) && resourceIndex == old(resourceIndex)
      ensures materialsDirty == old(materialsDirty) && lightsDirty == old(lightsDirty) && lightSlots == old(lightSlots)
      ensures events == old(events)
    {
      var lights := Bucket(renderables, Light);
      ghost var changed := false;
      for i := 0 to |lights|
        modifies this`trackedDirectional, this`environmentMipsToFilter
        invariant (trackedDirectional, changed) == TrackDirectional(old(trackedDirectional), lights[..i])
        invariant environmentMipsToFilter == if changed then MipsToFilter(mipCount) else old(environmentMipsToFilter)
      {
        assert lights[..i + 1][..i] == lights[..i];
        var entity := lights[i];
        if entity.light.Some? {
          if entity.light.value.lightType == Directional {
            if entity.light.value.appearance != trackedDirectional {
              trackedDirectional := entity.light.value.appearance;
              environmentMipsToFilter := MipsToFilter(mipCount);
              changed := true;
            }
          }
        }
      }
      assert lights[..|lights|] == lights;
    }

    /** OnSyncPoint: promotion, mip generation, the resource counter, the bindless
        rebuilds of whatever is dirty, and the directional-light check. The device's
        deletion-queue state and the skysphere's mip count are inputs; the arrays must be
        large enough for what is rebuilt. */
    method OnSyncPoint(deletionQueueNeedsParse: bool, mipCount: nat)
      requires Valid()
      requires mipCount < 0x1_0000_0000
      requires materialsDirty || entitiesToAdd != [] ==>
        MaterialsFit(0, |MaterialOrder(PendingRenderables())|, materialStride, TexturesPerMaterial(), arraySize)
      requires lightsDirty || entitiesToAdd != [] ==> |Bucket(PendingRenderables(), Light)| <= arraySize
      modifies this`renderables, this`camera, this`entitiesToAdd, this`sorted, this`materialsDirty,
               this`lightsDirty, this`mipQueue, this`events, this`resourceIndex, this`uniqueMaterialIds,
               this`materialIndex, this`materialSlots, this`lightSlots, this`trackedDirectional,
               this`environmentMipsToFilter, materialProperties, materialTextures, lightProperties
      ensures Valid()
      ensures renderables == old(PendingRenderables()) && entitiesToAdd == [] && mipQueue == []
      ensures camera == if old(entitiesToAdd) != [] then LastCamera(old(entitiesToAdd)) else old(camera)
      ensures sorted == (old(sorted) && old(entitiesToAdd) == [])
      ensures !materialsDirty && !lightsDirty
      ensures resourceIndex == Tick(old(resourceIndex), frameLifetime).0
      ensures var rebuild := old(materialsDirty) || old(entitiesToAdd) != [];
        MaterialState() == if rebuild
          then AddMaterials(Cleared(arraySize, old(materialSlots)), MaterialOrder(renderables), materialStride, TexturesPerMaterial())
          else old(MaterialState())
      ensures var rebuild := old(lightsDirty) || old(entitiesToAdd) != [];
        && lightProperties[..] == (if rebuild then LightRecords(Bucket(renderables, Light), options, arraySize)
                                   else old(lightProperties[..]))
        && lightSlots == (if rebuild then LightIndices(old(lightSlots), Bucket(renderables, Light)) else old(lightSlots))
      ensures var (kept, changed) := TrackDirectional(old(trackedDirectional), Bucket(renderables, Light));
        && trackedDirectional == kept
        && environmentMipsToFilter == if changed then MipsToFilter(mipCount) else old(environmentMipsToFilter)
      ensures events == old(events) + MipEvents(old(mipQueue))
        + SyncPointEvents(Tick(old(resourceIndex), frameLifetime).1, deletionQueueNeedsParse)
        + (if old(materialsDirty) || old(entitiesToAdd) != [] then [MaterialsUploaded] else [])
        + (if old(lightsDirty) || old(entitiesToAdd) != [] then [LightsUploaded] else [])
    {
      BeginSyncPoint(deletionQueueNeedsParse);
      UpdateBindless(mipCount);
    }
  }
}
