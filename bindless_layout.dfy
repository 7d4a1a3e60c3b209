/**
 * The flag words of the bindless material and light records. Each word comes with
 * its decoding, reading bit i back as feature i, and the round trip between the two
 * is proved.
 */
module BindlessLayout {
  import opened RendererTypes

  /** True when bit `mask` of `w` is set. */
  predicate Has(w: bv32, mask: bv32)
  {
    w & mask != 0
  }

  function BitIf(b: bool, mask: bv32): bv32
  {
    if b then mask else 0
  }

  /** The material flag word: bits 0-11 in the order of MaterialFeatures, bits 12-31 clear. */
  function MaterialFlagWord(f: MaterialFeatures): (w: bv32)
    ensures w < 0x1000
  {
    BitIf(f.singleTextureRoughnessMetalness, 0x1)
    | BitIf(f.heightTexture, 0x2)
    | BitIf(f.normalTexture, 0x4)
    | BitIf(f.colorTexture, 0x8)
    | BitIf(f.roughnessTexture, 0x10)
    | BitIf(f.metalnessTexture, 0x20)
    | BitIf(f.alphaMaskTexture, 0x40)
    | BitIf(f.emissionTexture, 0x80)
    | BitIf(f.occlusionTexture, 0x100)
    | BitIf(f.textureSlopeBased, 0x200)
    | BitIf(f.vertexAnimateWind, 0x400)
    | BitIf(f.vertexAnimateWater, 0x800)
  }

  /** A material flag word read back: bit i as feature i. */
  function DecodeMaterialFlags(w: bv32): MaterialFeatures
  {
    MaterialFeatures(
      Has(w, 0x1), Has(w, 0x2), Has(w, 0x4), Has(w, 0x8),
      Has(w, 0x10), Has(w, 0x20), Has(w, 0x40), Has(w, 0x80),
      Has(w, 0x100), Has(w, 0x200), Has(w, 0x400), Has(w, 0x800))
  }

  lemma MaterialFlagsRoundTrip(f: MaterialFeatures)
    ensures DecodeMaterialFlags(MaterialFlagWord(f)) == f
  {
    MaterialTextureBits(f);
    MaterialPropertyBits(f);
  }

  /** Bits 1-8: which textures the material has. */
  lemma MaterialTextureBits(f: MaterialFeatures)
    ensures Has(MaterialFlagWord(f), 0x2) == f.heightTexture
    ensures Has(MaterialFlagWord(f), 0x4) == f.normalTexture
    ensures Has(MaterialFlagWord(f), 0x8) == f.colorTexture
    ensures Has(MaterialFlagWord(f), 0x10) == f.roughnessTexture
    ensures Has(MaterialFlagWord(f), 0x20) == f.metalnessTexture
    ensures Has(MaterialFlagWord(f), 0x40) == f.alphaMaskTexture
    ensures Has(MaterialFlagWord(f), 0x80) == f.emissionTexture
    ensures Has(MaterialFlagWord(f), 0x100) == f.occlusionTexture
  {
  }

  /** Bits 0 and 9-11: the material's boolean properties. */
  lemma MaterialPropertyBits(f: MaterialFeatures)
    ensures Has(MaterialFlagWord(f), 0x1) == f.singleTextureRoughnessMetalness
    ensures Has(MaterialFlagWord(f), 0x200) == f.textureSlopeBased
    ensures Has(MaterialFlagWord(f), 0x400) == f.vertexAnimateWind
    ensures Has(MaterialFlagWord(f), 0x800) == f.vertexAnimateWater
  {
  }

  /** The light flag word read back: bit i as feature i. */
  datatype LightBits = LightBits(
    directional: bool,
    point: bool,
    spot: bool,
    shadows: bool,
    shadowsTransparent: bool,
    shadowsScreenSpace: bool,
    volumetric: bool)

  /** The light flag word: one-hot type in bits 0-2, shadow flags in bits 3-4, and bits 5
      and 6 only when both the light's flag and the matching global option are on. */
  function LightFlagWord(l: LightComponent, screenSpaceShadowsOption: bool, fogVolumetricOption: bool): (w: bv32)
    ensures w < 0x80
    ensures Has(w, 0x20) <==> l.shadowsScreenSpace && screenSpaceShadowsOption
    ensures Has(w, 0x40) <==> l.volumetric && fogVolumetricOption
  {
    BitIf(l.lightType == Directional, 0x1)
    | BitIf(l.lightType == Point, 0x2)
    | BitIf(l.lightType == Spot, 0x4)
    | BitIf(l.shadows, 0x8)
    | BitIf(l.shadowsTransparent, 0x10)
    | BitIf(l.shadowsScreenSpace && screenSpaceShadowsOption, 0x20)
    | BitIf(l.volumetric && fogVolumetricOption, 0x40)
  }

  function DecodeLightFlags(w: bv32): LightBits
  {
    LightBits(Has(w, 0x1), Has(w, 0x2), Has(w, 0x4), Has(w, 0x8),
              Has(w, 0x10), Has(w, 0x20), Has(w, 0x40))
  }

  /** Decoding the packed word gives back the light's type (exactly one type bit), its
      shadow flags, and the gated screen-space-shadow and volumetric bits. */
  lemma LightFlagsRoundTrip(l: LightComponent, screenSpaceShadowsOption: bool, fogVolumetricOption: bool)
    ensures DecodeLightFlags(LightFlagWord(l, screenSpaceShadowsOption, fogVolumetricOption))
         == LightBits(l.lightType == Directional, l.lightType == Point, l.lightType == Spot,
                      l.shadows, l.shadowsTransparent,
                      l.shadowsScreenSpace && screenSpaceShadowsOption,
                      l.volumetric && fogVolumetricOption)
  {
  }
}
