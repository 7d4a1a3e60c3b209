/**
 * Value types shared by the renderer model: entities and their components as the
 * renderer sees them, the renderable categories, and the side effects the renderer
 * asks of collaborators it does not own (GPU device, swap chain, FidelityFX),
 * recorded as events instead of being performed.
 */
module RendererTypes {

  datatype Option<T> = None | Some(value: T)

  type EntityId = nat
  type MaterialId = nat
  type TextureId = nat

  /** Renderer_Entity: the buckets of the renderable set. */
  datatype Category =
    | Geometry
    | GeometryInstanced
    | GeometryTransparent
    | GeometryTransparentInstanced
    | Light
    | Camera
    | AudioSource

  datatype LightType = Directional | Point | Spot

  datatype Quaternion = Quaternion(x: real, y: real, z: real, w: real)
  datatype Color = Color(r: real, g: real, b: real, a: real)

  /** What the environment re-filter compares of a directional light: its entity's
      rotation, its intensity in lumens and its colour. */
  datatype LightAppearance = LightAppearance(rotation: Quaternion, intensityLumens: real, color: Color)

  /** The parts of a Light component the renderer reads (type, LightFlags, appearance). */
  datatype LightComponent = LightComponent(
    lightType: LightType,
    shadows: bool,
    shadowsTransparent: bool,
    shadowsScreenSpace: bool,
    volumetric: bool,
    appearance: LightAppearance)

  /** The twelve booleans packed into a material record's flag word, in bit order:
      bit 0 is a property (SingleTextureRoughnessMetalness), bits 1-8 say which
      textures the material has, bits 9-11 are properties again. */
  datatype MaterialFeatures = MaterialFeatures(
    singleTextureRoughnessMetalness: bool,
    heightTexture: bool,
    normalTexture: bool,
    colorTexture: bool,
    roughnessTexture: bool,
    metalnessTexture: bool,
    alphaMaskTexture: bool,
    emissionTexture: bool,
    occlusionTexture: bool,
    textureSlopeBased: bool,
    vertexAnimateWind: bool,
    vertexAnimateWater: bool)

  /** A material: its object id, its ColorA property, its flag inputs and its texture
      slots (GetTexture by slot number; None stands for a null texture). */
  datatype Material = Material(id: MaterialId, alpha: real, features: MaterialFeatures, textures: seq<Option<TextureId>>)

  /** Material::GetTexture: a slot the material does not have reads as null. */
  function TextureAt(m: Material, slot: nat): Option<TextureId>
  {
    if slot < |m.textures| then m.textures[slot] else None
  }

  /** A Renderable component: its material (possibly none) and whether it is instanced. */
  datatype Renderable = Renderable(material: Option<Material>, instancing: bool)

  /** A scene entity as the renderer sees it: a closed set of optional components. */
  datatype Entity = Entity(
    id: EntityId,
    activeRecursively: bool,
    renderable: Option<Renderable>,
    light: Option<LightComponent>,
    camera: bool,
    audioSource: bool)

  /** Calls the renderer makes into collaborators, recorded in order. */
  datatype Event =
    | Fsr2HistoryReset                       // RHI_FidelityFX::FSR2_ResetHistory
    | ShadowMapRefreshed(light: EntityId)    // Light::RefreshShadowMap
    | SwapChainHdrSet(hdr: bool)             // RHI_SwapChain::SetHdr
    | SwapChainVsyncSet(vsync: bool)         // RHI_SwapChain::SetVsync
    | MipsGenerated(texture: TextureId)      // Pass_GenerateMips
    | DeletionQueueParsed                    // QueueWaitAll then DeletionQueueParse
    | DynamicOffsetsReset                    // ResetOffset on the frame constant buffer and every structured buffer
    | MaterialsUploaded                      // materials buffer reset, updated, bindless textures pushed
    | LightsUploaded                         // lights buffer reset and updated
    | RenderResourcesRecreated               // CreateRenderTargets and CreateSamplers after a resolution change
    | DisplayModeRegistered(width: nat, height: nat)
}
