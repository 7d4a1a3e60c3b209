# Renderer frame bookkeeping and engine-mode flags

This project models two parts of the Spartan engine runtime and proves properties of them.

**The renderer's frame bookkeeping** (`runtime/Rendering/Renderer.cpp`) covers:

- the option table, written by `SetOption`;
- the staging list, filled by `OnWorldResolved`;
- the renderable buckets, rebuilt at each sync point and emptied by `OnClear`;
- the active camera;
- the mip-generation queue;
- the frame resource counter with its sync-point branch;
- the bindless material and light arrays with their dirty flags;
- the directional-light check that schedules environment re-filtering;
- the render resolution, the output resolution and the viewport.

**The engine-mode bitset** (`runtime/Server/Flags/EngineFlags.cpp`) is a module-level 32-bit word. Each `EngineMode` owns one bit of it: Editor, Physics or Game.

How the model is laid out:

- **One object per source.** Renderer.cpp keeps its state in module-level variables, which become the fields of the class `Rendering.Renderer`; its functions become that class's methods. The flags word is the field of `Engine.EngineFlags`. Each method states its new state exactly: the fields it may change, and their new values.
- **Pure modules for the meaning.** What the new state means is defined in separate modules of pure functions:
  - `OptionTable`: the option table and its cascades;
  - `Classification`: staging and buckets;
  - `FrameCounter`: the resource counter;
  - `MaterialTable` and `LightTable`: the bindless arrays and the directional-light check;
  - `BindlessLayout`: the bindless flag words and their decoding.
- **Lemmas.** The properties are proved as lemmas about those functions.
- **Device calls as events.** Calls into the GPU device, the swap chain and FidelityFX are appended to the renderer's `events` sequence instead of being performed.

## Model

| member | source | states |
|---|---|---|
| Engine.EngineFlags.constructor | runtime/Server/Flags/EngineFlags.cpp:5-7 | the flags word starts with no mode set |
| Engine.EngineFlags.AddFlag | runtime/Server/Flags/EngineFlags.cpp:9-12 | the new word is the old word with the mode's bit ORed in |
| Engine.EngineFlags.RemoveFlag | runtime/Server/Flags/EngineFlags.cpp:14-17 | the new word is the old word with the mode's bit masked out |
| Engine.EngineFlags.IsFlagSet | runtime/Server/Flags/EngineFlags.cpp:20-23 | the word ANDed with the mask, read as a bool, is true exactly when the mode's bit is set |
| Engine.EngineFlags.ToggleFlag | runtime/Server/Flags/EngineFlags.cpp:30-33 | the test-then-remove-or-add leaves the word equal to the old word XOR the mode's mask |
| Engine.HasMode | runtime/Server/Flags/EngineFlags.h:10-15 | definition: the mode's bit is set in the word |
| Engine.WithMode | runtime/Server/Flags/EngineFlags.cpp:11 | definition: the word AddFlag stores; stated by AddSetsMode, AddKeepsOtherBits and AddKeepsOtherModes |
| Engine.WithoutMode | runtime/Server/Flags/EngineFlags.cpp:16 | definition: the word RemoveFlag stores; stated by RemoveClearsMode, RemoveKeepsOtherBits and RemoveKeepsOtherModes |
| Engine.Toggled | runtime/Server/Flags/EngineFlags.cpp:30-33 | reference definition of ToggleFlag (XOR with the mask); tied to the source's branches by ToggleSetIsRemove and ToggleClearIsAdd |
| Engine.EngineMode.Mask | runtime/Server/Flags/EngineFlags.h:12-14 | definition: the mode bits 1<<0, 1<<1 and 1<<2; stated by MasksDistinct and MaskIsSingleBit |
| Engine.FlagTest | runtime/Server/Flags/EngineFlags.cpp:22 | a non-zero AND with a single-bit mask means that bit is set |
| Engine.NonZeroIsSet | runtime/Server/Flags/EngineFlags.cpp:22 | `word & mask != 0` iff `word & mask == mask`, for every mode |
| Engine.IsEqualFlag | runtime/Server/Flags/EngineFlags.cpp:25-28 | two masks share a bit iff the two modes are the same mode |
| Engine.MasksDistinct | runtime/Server/Flags/EngineFlags.h:10-15 | distinct modes have distinct masks, and equal masks mean equal modes |
| Engine.MaskIsSingleBit | runtime/Server/Flags/EngineFlags.h:10-15 | every mode's mask is a non-zero power of two |
| Engine.AddSetsMode | runtime/Server/Flags/EngineFlags.cpp:9-12 | after AddFlag the mode is set |
| Engine.AddKeepsOtherBits | runtime/Server/Flags/EngineFlags.cpp:9-12 | AddFlag leaves every other bit of the word unchanged |
| Engine.AddKeepsOtherModes | runtime/Server/Flags/EngineFlags.cpp:9-12 | AddFlag never changes whether a different mode is set |
| Engine.AddIsIdempotent | runtime/Server/Flags/EngineFlags.cpp:9-12 | adding a mode twice gives the word of adding it once |
| Engine.RemoveClearsMode | runtime/Server/Flags/EngineFlags.cpp:14-17 | after RemoveFlag the mode is not set |
| Engine.RemoveKeepsOtherBits | runtime/Server/Flags/EngineFlags.cpp:14-17 | RemoveFlag leaves every other bit of the word unchanged |
| Engine.RemoveKeepsOtherModes | runtime/Server/Flags/EngineFlags.cpp:14-17 | RemoveFlag never changes whether a different mode is set |
| Engine.RemoveIsIdempotent | runtime/Server/Flags/EngineFlags.cpp:14-17 | removing a mode twice gives the word of removing it once |
| Engine.ToggleSetIsRemove | runtime/Server/Flags/EngineFlags.cpp:30-33 | when the mode is set, ToggleFlag's remove branch flips exactly the mode's bit |
| Engine.ToggleClearIsAdd | runtime/Server/Flags/EngineFlags.cpp:30-33 | when the mode is clear, ToggleFlag's add branch flips exactly the mode's bit |
| Engine.ToggleFlipsMode | runtime/Server/Flags/EngineFlags.cpp:30-33 | after ToggleFlag the mode is set iff it was not set before |
| Engine.ToggleKeepsOtherBits | runtime/Server/Flags/EngineFlags.cpp:30-33 | ToggleFlag leaves every other bit unchanged |
| Engine.ToggleKeepsOtherModes | runtime/Server/Flags/EngineFlags.cpp:30-33 | ToggleFlag never changes whether a different mode is set |
| Engine.ToggleTwiceRestores | runtime/Server/Flags/EngineFlags.cpp:30-33 | toggling the same mode twice restores the original word |
| OptionTable.Clamp | runtime/Rendering/Renderer.cpp:844 | the result lies in [lo, hi]; a value below lo becomes lo, a value above hi becomes hi, and a value inside is kept |
| OptionTable.ClampedValue | runtime/Rendering/Renderer.cpp:840-851 | Anisotropy is clamped to [0, 16] and ShadowResolution to [128, max texture dimension]: below the range gives the lower end, above it the upper end, inside it the value itself; every other option passes through unchanged |
| OptionTable.Truncate | runtime/Rendering/Renderer.cpp:878 | the float-to-enum cast truncates toward zero: the result is within one of the value, on the side of zero |
| OptionTable.EnumOption | runtime/Rendering/Renderer.cpp:878 | definition: an enum read of the table, an absent option reading 0; used by the cascade lemmas |
| OptionTable.BoolOption | runtime/Rendering/Renderer.cpp:245-246 | definition: a `GetOption<bool>` read, true when the option is stored non-zero; used by LightRecordsDecode |
| OptionTable.IsTaaValue | runtime/Rendering/Renderer.cpp:877 | definition: `taa_enabled` of the Antialiasing rule, Taa or TaaFxaa; used by AntialiasingCascade |
| OptionTable.SetVerdict | runtime/Rendering/Renderer.cpp:853-866 | definition: the early exit when the clamped value is already stored, then the HDR rejection; its effect is stated by NoChangeUnlessCommitted and SetThenGet |
| OptionTable.Cascade | runtime/Rendering/Renderer.cpp:873-924 | definition: the Antialiasing and Upsampling rules on the table; stated by AntialiasingCascade, UpsamplingCascade and OnlyOptionAndDependentChange |
| OptionTable.ShadowRefreshes | runtime/Rendering/Renderer.cpp:926-937 | definition: the refresh calls over the Light bucket; stated by ShadowRefreshesExactlyShadowedLights |
| OptionTable.AfterSetOption | runtime/Rendering/Renderer.cpp:837-952 | definition: the whole SetOption as a value (table, events, light change); stated by SetThenGet, NoChangeUnlessCommitted, the cascade lemmas, SetOptionTwiceIsFixedPoint and SetOptionSideEffects |
| OptionTable.SetThenGet | runtime/Rendering/Renderer.cpp:854-870 | unless the HDR request is rejected, the option reads back as its clamped value |
| OptionTable.NoChangeUnlessCommitted | runtime/Rendering/Renderer.cpp:854-866 | a value already stored, or Hdr=1 on a display without HDR, leaves the table unchanged and fires no event and no light change |
| OptionTable.OnlyOptionAndDependentChange | runtime/Rendering/Renderer.cpp:869-951 | every option other than the one set and its single dependent keeps both its presence and its value, so a cascade writes at most one other option |
| OptionTable.AntialiasingCascade | runtime/Rendering/Renderer.cpp:875-899 | Taa/TaaFxaa leaves Upsampling at FSR 2, resetting its history exactly when it was not FSR 2 already; any other value turns FSR 2 into Linear or else changes nothing else |
| OptionTable.UpsamplingCascade | runtime/Rendering/Renderer.cpp:901-924 | Linear while AA is Taa disables AA; FSR 2 while AA is not Taa sets AA to Taa and resets the history; otherwise only Upsampling changes |
| OptionTable.Fsr2ReplacesTaaFxaa | runtime/Rendering/Renderer.cpp:875-922 | setting Upsampling to FSR 2 while AA is TaaFxaa forces AA down to Taa |
| OptionTable.LinearKeepsTaaFxaa | runtime/Rendering/Renderer.cpp:903-912 | setting Upsampling to Linear while AA is TaaFxaa leaves TaaFxaa without FSR 2 |
| OptionTable.SetOptionTwiceIsFixedPoint | runtime/Rendering/Renderer.cpp:837-952 | repeating the same SetOption changes nothing and fires nothing |
| OptionTable.SetOptionSideEffects | runtime/Rendering/Renderer.cpp:926-950 | lights become dirty iff FogVolumetric or ScreenSpaceShadows changes; ShadowResolution refreshes exactly the shadowed lights; Hdr and Vsync reach the swap chain |
| OptionTable.ShadowRefreshesExactlyShadowedLights | runtime/Rendering/Renderer.cpp:928-936 | a light's shadow map is refreshed iff it is in the Light bucket with shadows on |
| Rendering.Renderer.SetOption | runtime/Rendering/Renderer.cpp:837-952 | the table, the recorded events and the light dirty flag become exactly those of AfterSetOption on the old table |
| Rendering.Renderer.CommitOption | runtime/Rendering/Renderer.cpp:869-951 | once the value is known to change, storing it and cascading gives AfterSetOption's table, events and light change |
| Rendering.Renderer.ApplyCascade | runtime/Rendering/Renderer.cpp:875-924 | the Antialiasing/Upsampling rule writes the dependent option straight into the table, recording the FSR 2 history reset when one happens |
| Rendering.Renderer.RefreshShadowMaps | runtime/Rendering/Renderer.cpp:928-936 | one refresh event per shadowed light of the Light bucket, in bucket order |
| Classification.Select | runtime/Rendering/Renderer.cpp:632-640 | definition: the order-preserving filter; stated by SelectMembership and SelectConcat |
| Classification.ActiveEntities | runtime/Rendering/Renderer.cpp:632-640 | definition: the recursively active entities in input order |
| Classification.GeometryBucket | runtime/Rendering/Renderer.cpp:688-710 | definition: the geometry bucket of a renderable; stated by GeometryBucketClassifies |
| Classification.InCategory | runtime/Rendering/Renderer.cpp:688-727 | definition: the buckets an entity belongs in; stated by GeometryBucketsExclusive and AddEntityBucket |
| Classification.Bucket | runtime/Rendering/Renderer.cpp:703-726 | definition: a `m_renderables[...]` read, a missing bucket being empty; stated by AppendBucket |
| Classification.Append | runtime/Rendering/Renderer.cpp:703-726 | definition: the `emplace_back` into one bucket; stated by AppendBucket |
| Classification.AddEntity | runtime/Rendering/Renderer.cpp:686-727 | definition: promotion of one entity; stated by AddEntityBucket |
| Classification.GeometryStep | runtime/Rendering/Renderer.cpp:688-711 | definition: the geometry step of promotion; stated by GeometryStepBucket |
| Classification.Promoted | runtime/Rendering/Renderer.cpp:680-734 | definition: the buckets promotion builds; stated by PromotedBucket and PromotedMembership |
| Classification.LastCamera | runtime/Rendering/Renderer.cpp:684-722 | definition: the camera promotion leaves active; stated by LastCameraIsLast |
| Classification.SelectMembership | runtime/Rendering/Renderer.cpp:632-640 | an entity survives the filter iff it was in the input and passes the test |
| Classification.SelectConcat | runtime/Rendering/Renderer.cpp:632-640 | filtering keeps input order across concatenation |
| Rendering.Renderer.OnWorldResolved | runtime/Rendering/Renderer.cpp:621-641 | the staging list becomes exactly the recursively active input entities in input order, discarding what was staged before |
| Rendering.Renderer.OnClear | runtime/Rendering/Renderer.cpp:643-646 | every bucket reads empty |
| Classification.GeometryBucketClassifies | runtime/Rendering/Renderer.cpp:688-710 | alpha 0 means no geometry bucket; alpha below 1 means a transparent bucket; instancing picks the instanced variant; a visible renderable always lands in one of the four |
| Classification.GeometryBucketsExclusive | runtime/Rendering/Renderer.cpp:699-709 | an entity is in at most one geometry bucket, and in none when its alpha is 0 |
| Classification.AppendBucket | runtime/Rendering/Renderer.cpp:703-726 | appending extends only the chosen bucket, by that entity |
| Classification.AddEntityBucket | runtime/Rendering/Renderer.cpp:686-727 | promoting one entity appends it to exactly the buckets it belongs in and leaves the rest alone |
| Classification.GeometryStepBucket | runtime/Rendering/Renderer.cpp:688-711 | the geometry step appends only to the entity's own geometry bucket |
| Classification.ComponentBuckets | runtime/Rendering/Renderer.cpp:713-727 | the light, camera and audio steps append only to the Light, Camera and AudioSource buckets |
| Classification.PromotedBucket | runtime/Rendering/Renderer.cpp:680-734 | each promoted bucket holds exactly the staged entities of its category, in staging order |
| Classification.PromotedMembership | runtime/Rendering/Renderer.cpp:680-734 | an entity is in a promoted bucket iff it was staged and belongs there |
| Classification.LastCameraIsLast | runtime/Rendering/Renderer.cpp:684-722 | no camera remains iff no staged entity has one; otherwise the camera is a staged camera with no camera staged after it |
| Rendering.Renderer.PromoteEntity | runtime/Rendering/Renderer.cpp:686-727 | one entity is added to its buckets, and a camera entity becomes the active camera |
| Rendering.Renderer.PromotePending | runtime/Rendering/Renderer.cpp:680-734 | a non-empty staging list replaces the buckets, sets the last staged camera, empties the list and marks materials and lights dirty; an empty one changes nothing |
| Rendering.Renderer.AddTextureForMipGeneration | runtime/Rendering/Renderer.cpp:984-988 | the texture is appended to the end of the mip queue |
| Rendering.MipEvents | runtime/Rendering/Renderer.cpp:739-742 | one mip-generation pass per queued texture: as many events as textures, the i-th for the i-th texture |
| Rendering.Renderer.GenerateQueuedMips | runtime/Rendering/Renderer.cpp:736-744 | every queued texture gets one mip-generation pass, in queue order, then the queue is empty |
| FrameCounter.Tick | runtime/Rendering/Renderer.cpp:750-754 | the counter stays below the lifetime, is the successor mod N, and signals a sync point iff it reached N |
| FrameCounter.Run | runtime/Rendering/Renderer.cpp:750-754 | any number of ticks keeps the counter below N and counts at most one sync point per tick |
| FrameCounter.RunFromZero | runtime/Rendering/Renderer.cpp:750-754 | from 0, t ticks leave the counter at t mod N after t div N sync points |
| FrameCounter.SyncExactlyOnMultiples | runtime/Rendering/Renderer.cpp:750-754 | the sync-point branch runs exactly on ticks N, 2N, 3N, ... |
| FrameCounter.SyncAtTick | runtime/Rendering/Renderer.cpp:750-752 | definition: whether the t-th tick from 0 is a sync point; stated by SyncExactlyOnMultiples |
| Rendering.SyncPointEvents | runtime/Rendering/Renderer.cpp:752-773 | the buffer offsets are reset iff this is a sync point, and last; the deletion queue is parsed iff it is a sync point and a parse is pending, and first; at most two calls |
| Rendering.Renderer.AdvanceResourceIndex | runtime/Rendering/Renderer.cpp:750-773 | the counter takes one Tick; the deletion-queue parse (when pending) and the offset resets are recorded only at a sync point |
| BindlessLayout.MaterialFlagWord | runtime/Rendering/Renderer.cpp:145-156 | the material flag word uses only bits 0-11 |
| BindlessLayout.MaterialFlagsRoundTrip | runtime/Rendering/Renderer.cpp:145-157 | reading bit i of the material flag word back as feature i gives back every material feature |
| BindlessLayout.MaterialTextureBits | runtime/Rendering/Renderer.cpp:146-153 | bits 1-8 say whether the material has its height, normal, colour, roughness, metalness, alpha-mask, emission and occlusion textures |
| BindlessLayout.MaterialPropertyBits | runtime/Rendering/Renderer.cpp:145-156 | bits 0 and 9-11 carry single-texture roughness/metalness, slope-based texturing and the wind and water vertex animations |
| BindlessLayout.LightFlagWord | runtime/Rendering/Renderer.cpp:239-246 | the light flag word uses only bits 0-6; bit 5 is set iff the light's screen-space shadows flag and the ScreenSpaceShadows option are both on; bit 6 likewise with Volumetric and FogVolumetric |
| BindlessLayout.LightFlagsRoundTrip | runtime/Rendering/Renderer.cpp:239-247 | decoding the light word gives exactly one type bit, the shadow flags, and the two option-gated bits |
| MaterialTable.Cleared | runtime/Rendering/Renderer.cpp:108-114 | definition: the tables after materials::clear; stated by ClearMaterials and the slot lemmas |
| MaterialTable.AddMaterial | runtime/Rendering/Renderer.cpp:116-177 | definition: materials::update for one material; stated by UpdateMaterial and, over runs, by the slot lemmas |
| MaterialTable.FlaggedRecord | runtime/Rendering/Renderer.cpp:145-156 | definition: the OR-assignments into a record's flag word; stated by PropertiesAtSlot and PropertiesAtLast |
| MaterialTable.EntityMaterials | runtime/Rendering/Renderer.cpp:183-188 | definition: an entity's renderable material when it has one; stated by MaterialsOfPrefix |
| MaterialTable.WriteTextures | runtime/Rendering/Renderer.cpp:163-171 | definition: the texture block written from a slot; stated by TexturesAtSlot and TexturesOffSlot |
| MaterialTable.MaterialsOf | runtime/Rendering/Renderer.cpp:179-191 | definition: the materials of a bucket's entities, in order; stated by MaterialsOfConcat and MaterialsOfPrefix |
| MaterialTable.MaterialOrder | runtime/Rendering/Renderer.cpp:193-201 | definition: the four geometry buckets' materials in rebuild order; stated by UpdateMaterials |
| MaterialTable.AddMaterials | runtime/Rendering/Renderer.cpp:116-191 | processing a run of materials keeps the array sizes, never marks an id processed, and advances the index by one stride per material |
| MaterialTable.AddMaterialsConcat | runtime/Rendering/Renderer.cpp:179-201 | processing two runs one after the other is processing their concatenation |
| MaterialTable.NextBucketFits | runtime/Rendering/Renderer.cpp:195-200 | a later bucket continues the rebuild where the earlier ones stopped, within capacity |
| MaterialTable.MaterialsOfConcat | runtime/Rendering/Renderer.cpp:179-191 | the materials met in two entity lists are those of the first followed by those of the second |
| MaterialTable.MaterialsOfPrefix | runtime/Rendering/Renderer.cpp:181-190 | each entity contributes its renderable's material, when present, after those of the entities before it |
| MaterialTable.PropertiesAtSlot | runtime/Rendering/Renderer.cpp:145-176 | the k-th material met after a clear owns properties slot k × stride, holding exactly its flag word, even when the material occurred before |
| MaterialTable.PropertiesAtLast | runtime/Rendering/Renderer.cpp:145-156 | the last material ORs its flag word into the zeroed record at its slot |
| MaterialTable.PropertiesKeptByLast | runtime/Rendering/Renderer.cpp:123-158 | writing the last material touches only its own properties slot |
| MaterialTable.PropertiesOffSlot | runtime/Rendering/Renderer.cpp:110-158 | a properties slot that starts no material's block stays a zeroed record |
| MaterialTable.TexturesAtSlot | runtime/Rendering/Renderer.cpp:163-171 | the k-th material's textures occupy slots k × stride to k × stride + texture count, in type-then-variation order |
| MaterialTable.TexturesOffSlot | runtime/Rendering/Renderer.cpp:111-171 | a texture slot outside every material's block stays null |
| MaterialTable.RecordedSlot | runtime/Rendering/Renderer.cpp:175-176 | a material records the slot of its last occurrence in the run |
| MaterialTable.UnrecordedSlot | runtime/Rendering/Renderer.cpp:175 | a material that does not occur keeps the index it recorded before |
| MaterialTable.SharedMaterialTakesTwoSlots | runtime/Rendering/Renderer.cpp:104-120 | because no id is ever inserted into the processed set, a material met twice takes two slots and records the second |
| MaterialTable.SlotInBlock | runtime/Rendering/Renderer.cpp:163-169 | type × per-type count + variation stays inside the material's block |
| MaterialTable.FitPrefix | runtime/Rendering/Renderer.cpp:169-176 | if a run of materials fits, every prefix fits, and the next material has room for its textures |
| Rendering.Renderer.ClearMaterials | runtime/Rendering/Renderer.cpp:108-114 | every record is zeroed, every texture is null, the processed set is empty and the index is 0 |
| Rendering.Renderer.UpdateMaterial | runtime/Rendering/Renderer.cpp:116-177 | the bindless material state becomes AddMaterial of the old state: flag word, textures, SetIndex, and one stride on |
| Rendering.Renderer.WriteMaterialTextures | runtime/Rendering/Renderer.cpp:160-173 | the material's textures are written from the slot index on and every other slot keeps its value |
| Rendering.Renderer.UpdateMaterialsFrom | runtime/Rendering/Renderer.cpp:179-191 | one bucket's materials are processed in entity order |
| Rendering.Renderer.UpdateBucket | runtime/Rendering/Renderer.cpp:197-200 | one bucket's update continues the rebuild after the buckets before it |
| Rendering.Renderer.UpdateBucketPair | runtime/Rendering/Renderer.cpp:197-200 | two consecutive bucket updates continue the rebuild over both buckets |
| Rendering.Renderer.UpdateMaterials | runtime/Rendering/Renderer.cpp:193-201 | the material state becomes the cleared tables plus every material of Geometry, GeometryInstanced, GeometryTransparent and GeometryTransparentInstanced, in that order |
| LightTable.LightRecordOf | runtime/Rendering/Renderer.cpp:239-246 | definition: one light's packed record under the current options; stated by LightRecordsDecode |
| LightTable.LightIndices | runtime/Rendering/Renderer.cpp:215-249 | definition: SetIndex over the Light bucket; stated by LightIndexIsPosition and LightIndexOutsideBucket |
| LightTable.IsDirectional | runtime/Rendering/Renderer.cpp:808-810 | definition: the entity carries a directional light; used by the tracking lemmas |
| LightTable.TrackDirectional | runtime/Rendering/Renderer.cpp:800-826 | definition: the directional-light scan; stated by TrackUnchangedIff, TrackKeepsLastDirectional, TrackUniform and TrackTwiceUnchanged |
| LightTable.LightRecords | runtime/Rendering/Renderer.cpp:209-251 | the rebuilt light array keeps its full capacity |
| LightTable.LightRecordsNone | runtime/Rendering/Renderer.cpp:212 | the cleared light array holds only empty records |
| LightTable.LightRecordsStep | runtime/Rendering/Renderer.cpp:216-250 | writing light i into slot i extends the array built from the first i lights |
| LightTable.LightRecordsDecode | runtime/Rendering/Renderer.cpp:212-250 | slot i holds the i-th light's type, shadow flags and option-gated bits; a slot past the last light reads as no light |
| LightTable.LightIndexIsPosition | runtime/Rendering/Renderer.cpp:215-249 | the i-th light records index i |
| LightTable.LightIndexOutsideBucket | runtime/Rendering/Renderer.cpp:216-221 | an entity outside the Light bucket keeps the index it had |
| Rendering.Renderer.UpdateLights | runtime/Rendering/Renderer.cpp:209-251 | the light array becomes LightRecords of the Light bucket under the current options, and light i records index i |
| LightTable.TrackUnchangedIff | runtime/Rendering/Renderer.cpp:806-825 | the scan reports no change iff every directional light matches the appearance kept before, and then keeps it |
| LightTable.TrackKeepsLastDirectional | runtime/Rendering/Renderer.cpp:812-819 | after the scan the kept appearance is that of the last directional light, or the old one when there is none |
| LightTable.TrackUniform | runtime/Rendering/Renderer.cpp:806-825 | when all directional lights look alike the scan keeps their appearance |
| LightTable.TrackTwiceUnchanged | runtime/Rendering/Renderer.cpp:800-826 | with uniform directional lights, a second sync point schedules no re-filter |
| LightTable.MipsToFilter | runtime/Rendering/Renderer.cpp:821 | the mip count minus one in 32-bit unsigned arithmetic: wraps to 0xFFFFFFFF for 0 mips |
| Rendering.Renderer.TrackDirectionalLight | runtime/Rendering/Renderer.cpp:800-826 | the kept appearance advances to the scan's result, and the re-filter count is set only when a directional light changed |
| Rendering.Renderer.UploadMaterialsIfDirty | runtime/Rendering/Renderer.cpp:780-788 | when dirty, materials are rebuilt and uploaded and the flag is cleared; otherwise nothing changes |
| Rendering.Renderer.UploadLightsIfDirty | runtime/Rendering/Renderer.cpp:790-797 | when dirty, lights are rebuilt and uploaded and the flag is cleared; otherwise nothing changes |
| Rendering.Renderer.BeginSyncPoint | runtime/Rendering/Renderer.cpp:679-773 | promotion, the mip drain and the counter tick, leaving the bindless arrays alone |
| Rendering.Renderer.UpdateBindless | runtime/Rendering/Renderer.cpp:775-826 | the dirty rebuilds and uploads followed by the directional-light check |
| Rendering.Renderer.OnSyncPoint | runtime/Rendering/Renderer.cpp:677-827 | the whole pass: buckets from the staging list, mips drained, counter ticked, materials and lights rebuilt exactly when dirty or newly promoted, re-filter scheduled on a directional change, events in source order |
| Rendering.Renderer.SetViewport | runtime/Rendering/Renderer.cpp:442-453 | the viewport takes the new size, and the orthographic projection is marked dirty when either side changed |
| Rendering.Renderer.SetResolutionRender | runtime/Rendering/Renderer.cpp:460-495 | refused when invalid or larger than the output, a no-op when unchanged; otherwise stored, with resources recreated on request and the display mode registered |
| Rendering.Renderer.SetResolutionOutput | runtime/Rendering/Renderer.cpp:502-530 | refused when invalid, a no-op when unchanged; otherwise stored, with resources recreated on request |
| Rendering.Renderer.constructor | runtime/Rendering/Renderer.cpp:62-107 | empty tables and queues, a zeroed counter, cleared bindless arrays and both dirty flags set |

## Left out

- The float payloads of the bindless records are not modelled. These are the material colour, tiling and multipliers, and the light intensity, range, angle, bias, position, direction and view-projection matrices. Only the flag words, the texture slots and the slot indices are kept.
- `GetOption` is declared in Renderer.h, which is not part of this model. The model assumes how it reads the table:
  - an absent option reads as 0;
  - an enum read truncates the float toward zero;
  - a bool read is "non-zero";
  - a read never inserts into the table, as `operator[]` on the map returned by `GetOptions` (Renderer.cpp:954-957) would for an absent option.
- `Helper::Clamp` is not part of this model. It is taken to be the standard clamp.
- The maximum texture dimension is a constant parameter of the renderer.
- Display HDR support is an argument of SetOption.
- `RHI_Device::IsValidResolution` is a boolean argument of the resolution setters.
- `DeletionQueueNeedsToParse` is a boolean argument of OnSyncPoint.
- The skysphere's mip count is an argument of OnSyncPoint.
- The following calls are recorded events, not modelled behaviour:
  - GPU device, swap chain and FidelityFX calls;
  - buffer uploads and offset resets;
  - render-target and sampler recreation;
  - display-mode registration;
  - the LightOnChanged event, which is modelled by setting the light dirty flag directly.
- Logging is not modelled.
- The mutexes around the staging list and the mip queue are not modelled: both are plain sequences. So is the atomic re-filter counter, which is a plain field.
- Resolutions are naturals rather than floats.
- The viewport size is a real. Float rounding and NaN are not modelled.
- OptionTable.AfterSetOption: option values are reals, so a NaN value is not modelled. In the source a NaN never equals the stored value, so `SetOption(option, NaN)` never takes the early exit at Renderer.cpp:854.
- LightTable.TrackDirectional: rotation, intensity and colour are reals, so NaN is not modelled. In the source a NaN intensity differs from itself at Renderer.cpp:812-814 and schedules a re-filter at every sync point.
- Rendering.Renderer.SetViewport: requires a non-zero width and height. The `SP_ASSERT_MSG` checks at Renderer.cpp:444-445 become a caller obligation.
- Entities are compared by value. Light indices are kept in a map keyed by entity id.
- Reading a bucket that is missing from the map gives an empty bucket. The insertion that C++ `operator[]` performs on a missing key is not modelled, since an inserted empty bucket reads the same.
- The function-static rotation, intensity and colour of the directional-light check are the field `trackedDirectional`. Their default-constructed initial value, whose definition is outside this model, is a constructor argument.
- Rendering.Renderer.OnSyncPoint: requires that the rebuilt material and light arrays fit in `rhi_max_array_size`. The source writes past the end of those arrays when they do not, so the model makes capacity a caller obligation.
- Rendering.Renderer.UpdateMaterials: requires that the materials fit; the source does not check this.
- Rendering.Renderer.UpdateLights: requires that the lights fit; the source does not check this.
- `Initialize`, `OnFullScreenToggled`, `UpdateConstantBufferFrame`, `Tick`, `Present`, `Screenshot`, `GetOptions`/`SetOptions` and the other getters are outside the modelled core.
- `material_texture_count_support`, `material_texture_type_count` and `material_texture_count_per_type` are constant parameters, because their definitions are not part of this model. The stride must be at least type count × per-type count.
- `resources_frame_lifetime` is a parameter N ≥ 1, and `rhi_max_array_size` is a constant parameter, for the same reason.
- The Renderer_Antialiasing and Renderer_Upsampling ordinals are not part of this model. They are taken as Disabled, Fxaa, Taa, TaaFxaa = 0, 1, 2, 3 and Linear, FSR2 = 0, 1. The lemmas rely only on these being distinct.
- Engine.EngineFlags.ToggleFlag: its ensures gives the new word as the XOR of the old word with the mode's mask. The flip of membership is stated separately, in `Engine.ToggleFlipsMode`, and so is the preservation of the other modes, in `Engine.ToggleKeepsOtherModes`.

## Where the code differs from its comments

Both behaviours below are modelled as the code does them.

- The set declared at Renderer.cpp:104 and the comment at 118 suggest that materials are deduplicated by id. The code never inserts an id into `unique_material_ids`, so the model follows the code: every occurrence of a material takes a new slot. This is shown by `MaterialTable.SharedMaterialTakesTwoSlots`.
- The Antialiasing rule treats TaaFxaa as TAA (line 877), but the Upsampling rule compares with Taa only (line 903). This asymmetry is reproduced as written. It is shown by `OptionTable.Fsr2ReplacesTaaFxaa` and `OptionTable.LinearKeepsTaaFxaa`.
