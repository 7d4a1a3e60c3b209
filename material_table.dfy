/**
 * The bindless materials builder as a function of its state: the properties array,
 * the texture array, the running slot index, the set of material ids already
 * processed, and the slot index each material records on itself (SetIndex).
 *
 * The builder looks material ids up in `uniqueIds` but never inserts one, so every
 * occurrence of a material takes a fresh slot; the lemmas below state the layout
 * that results.
 */
module MaterialTable {
  import opened RendererTypes
  import opened BindlessLayout
  import opened Classification

  datatype MaterialRecord = MaterialRecord(flags: bv32)

  const EmptyMaterialRecord := MaterialRecord(0)

  /** A record with the material's flag bits ORed into its flag word. */
  function FlaggedRecord(r: MaterialRecord, f: MaterialFeatures): MaterialRecord
  {
    MaterialRecord(r.flags | MaterialFlagWord(f))
  }

  /** ORing a flag word into a zeroed record gives exactly that word. */
  lemma OrIntoEmpty(w: bv32)
    ensures EmptyMaterialRecord.flags | w == w
  {
  }

  datatype MaterialTables = MaterialTables(
    properties: seq<MaterialRecord>,
    textures: seq<Option<TextureId>>,
    index: nat,
    uniqueIds: set<MaterialId>,
    slots: map<MaterialId, nat>)

  /** materials::clear: every record zeroed, every texture null, no id processed, slot 0.
      The indices materials recorded earlier stay with the materials. */
  function Cleared(capacity: nat, slots: map<MaterialId, nat>): MaterialTables
  {
    MaterialTables(seq(capacity, _ => EmptyMaterialRecord), seq(capacity, _ => None), 0, {}, slots)
  }

  /** The texture array with material `m`'s first `count` textures written from `at` on. */
  function WriteTextures(textures: seq<Option<TextureId>>, at: nat, m: Material, count: nat): seq<Option<TextureId>>
  {
    seq(|textures|, j requires 0 <= j < |textures| => if at <= j < at + count then TextureAt(m, j - at) else textures[j])
  }

  /** materials::update for one material, `stride` being material_texture_count_support and
      `texturesPerMaterial` the type count times the per-type count. */
  function AddMaterial(t: MaterialTables, m: Material, stride: nat, texturesPerMaterial: nat): MaterialTables
    requires 1 <= texturesPerMaterial
    requires |t.properties| == |t.textures| && t.index + texturesPerMaterial <= |t.textures|
  {
    if m.id in t.uniqueIds then t
    else
      MaterialTables(
        t.properties[t.index := FlaggedRecord(t.properties[t.index], m.features)],
        WriteTextures(t.textures, t.index, m, texturesPerMaterial),
        t.index + stride,
        t.uniqueIds,
        t.slots[m.id := t.index])
  }

  /** The capacity demand: the last of `count` materials starting at slot `start` still
      has room for all its textures. */
  predicate MaterialsFit(start: nat, count: nat, stride: nat, texturesPerMaterial: nat, capacity: nat)
  {
    count == 0 || start + (count - 1) * stride + texturesPerMaterial <= capacity
  }

  lemma {:induction false} MulMonotone(a: nat, b: nat, s: nat)
    requires a <= b
    ensures a * s <= b * s
  {
    if a < b {
      MulMonotone(a, b - 1, s);
      assert b * s == (b - 1) * s + s;
    }
  }

  /** Materials processed in order, starting from tables in which no id is marked
      processed. Every material advances the slot index by one stride. */
  function AddMaterials(t: MaterialTables, ms: seq<Material>, stride: nat, texturesPerMaterial: nat): (r: MaterialTables)
    requires 1 <= texturesPerMaterial
    requires |t.properties| == |t.textures| && t.uniqueIds == {}
    requires MaterialsFit(t.index, |ms|, stride, texturesPerMaterial, |t.textures|)
    ensures |r.properties| == |t.properties| && |r.textures| == |t.textures|
    ensures r.uniqueIds == {}
    ensures r.index == t.index + |ms| * stride
  {
    if ms == [] then t
    else
      var n := |ms|;
      MulMonotone(n - 2 + 1, n - 1, stride);
      assert (n - 1) * stride == (n - 2) * stride + stride;
      var prev := AddMaterials(t, ms[..n - 1], stride, texturesPerMaterial);
      assert n * stride == (n - 1) * stride + stride;
      AddMaterial(prev, ms[n - 1], stride, texturesPerMaterial)
  }

  /** Processing two runs of materials one after the other is processing their concatenation. */
  lemma {:induction false} AddMaterialsConcat(t: MaterialTables, a: seq<Material>, b: seq<Material>,
                                              stride: nat, texturesPerMaterial: nat)
    requires 1 <= texturesPerMaterial
    requires |t.properties| == |t.textures| && t.uniqueIds == {}
    requires MaterialsFit(t.index, |a + b|, stride, texturesPerMaterial, |t.textures|)
    ensures MaterialsFit(t.index, |a|, stride, texturesPerMaterial, |t.textures|)
    ensures MaterialsFit(t.index + |a| * stride, |b|, stride, texturesPerMaterial, |t.textures|)
    ensures AddMaterials(AddMaterials(t, a, stride, texturesPerMaterial), b, stride, texturesPerMaterial)
         == AddMaterials(t, a + b, stride, texturesPerMaterial)
  {
    if a != [] {
      MulMonotone(|a| - 1, |a + b| - 1, stride);
    }
    if b != [] {
      assert (|a| + |b| - 1) * stride == |a| * stride + (|b| - 1) * stride;
    }
    if b == [] {
      assert a + b == a;
    } else {
      var b' := b[..|b| - 1];
      assert (a + b)[..|a + b| - 1] == a + b';
      assert (a + b)[|a + b| - 1] == b[|b| - 1];
      MulMonotone(|a + b'|, |a + b| - 1, stride);
      AddMaterialsConcat(t, a, b', stride, texturesPerMaterial);
    }
  }

  /** Slots taken by different materials are a full stride apart. */
  lemma SlotsApart(k: nat, n: nat, stride: nat)
    requires k < n
    ensures k * stride + stride <= n * stride
  {
    MulMonotone(k + 1, n, stride);
  }

  /** A properties slot no material of the run starts at keeps its zeroed record. */
  lemma {:induction false} PropertiesOffSlot(capacity: nat, slots: map<MaterialId, nat>, ms: seq<Material>,
                                             stride: nat, texturesPerMaterial: nat, j: nat)
    requires 1 <= texturesPerMaterial
    requires MaterialsFit(0, |ms|, stride, texturesPerMaterial, capacity)
    requires j < capacity
    requires forall k :: 0 <= k < |ms| ==> j != k * stride
    ensures AddMaterials(Cleared(capacity, slots), ms, stride, texturesPerMaterial).properties[j] == EmptyMaterialRecord
  {
    if ms != [] {
      var n := |ms|;
      MulMonotone(n - 2 + 1, n - 1, stride);
      PropertiesOffSlot(capacity, slots, ms[..n - 1], stride, texturesPerMaterial, j);
    }
  }

  /** The k-th material of the run owns slot k * stride of the properties array, whose
      flag word is exactly the material's, even when the material occurred before. */
  lemma {:induction false} PropertiesAtSlot(capacity: nat, slots: map<MaterialId, nat>, ms: seq<Material>,
                                            stride: nat, texturesPerMaterial: nat, k: nat)
    requires 1 <= texturesPerMaterial <= stride
    requires MaterialsFit(0, |ms|, stride, texturesPerMaterial, capacity)
    requires k < |ms|
    ensures k * stride < capacity
    ensures AddMaterials(Cleared(capacity, slots), ms, stride, texturesPerMaterial).properties[k * stride]
         == MaterialRecord(MaterialFlagWord(ms[k].features))
  {
    var n := |ms|;
    MulMonotone(k, n - 1, stride);
    if k < n - 1 {
      var prefix := ms[..n - 1];
      MulMonotone(n - 2 + 1, n - 1, stride);
      SlotsApart(k, n - 1, stride);
      PropertiesAtSlot(capacity, slots, prefix, stride, texturesPerMaterial, k);
      PropertiesKeptByLast(capacity, slots, ms, stride, texturesPerMaterial, k * stride);
      assert prefix[k] == ms[k];
    } else {
      PropertiesAtLast(capacity, slots, ms, stride, texturesPerMaterial);
    }
  }

  /** The last material of a run writes its flag word into the zeroed record at its slot. */
  lemma PropertiesAtLast(capacity: nat, slots: map<MaterialId, nat>, ms: seq<Material>,
                         stride: nat, texturesPerMaterial: nat)
    requires 1 <= texturesPerMaterial <= stride
    requires MaterialsFit(0, |ms|, stride, texturesPerMaterial, capacity)
    requires ms != []
    ensures (|ms| - 1) * stride < capacity
    ensures AddMaterials(Cleared(capacity, slots), ms, stride, texturesPerMaterial).properties[(|ms| - 1) * stride]
         == MaterialRecord(MaterialFlagWord(ms[|ms| - 1].features))
  {
    var n := |ms|;
    var prefix := ms[..n - 1];
    MulMonotone(n - 2 + 1, n - 1, stride);
    var prev := AddMaterials(Cleared(capacity, slots), prefix, stride, texturesPerMaterial);
    forall i | 0 <= i < |prefix| ensures (n - 1) * stride != i * stride {
      SlotsApart(i, n - 1, stride);
    }
    PropertiesOffSlot(capacity, slots, prefix, stride, texturesPerMaterial, (n - 1) * stride);
    assert prev.properties[prev.index] == EmptyMaterialRecord;
    OrIntoEmpty(MaterialFlagWord(ms[n - 1].features));
  }

  /** The last material of a run leaves every properties slot but its own as it was. */
  lemma PropertiesKeptByLast(capacity: nat, slots: map<MaterialId, nat>, ms: seq<Material>,
                             stride: nat, texturesPerMaterial: nat, j: nat)
    requires 1 <= texturesPerMaterial
    requires MaterialsFit(0, |ms|, stride, texturesPerMaterial, capacity)
    requires ms != [] && j < capacity && j != (|ms| - 1) * stride
    ensures MaterialsFit(0, |ms| - 1, stride, texturesPerMaterial, capacity)
    ensures AddMaterials(Cleared(capacity, slots), ms, stride, texturesPerMaterial).properties[j]
         == AddMaterials(Cleared(capacity, slots), ms[..|ms| - 1], stride, texturesPerMaterial).properties[j]
  {
    MulMonotone(|ms| - 2 + 1, |ms| - 1, stride);
  }

  /** The k-th material's textures occupy slots k * stride up to k * stride + texturesPerMaterial. */
  lemma {:induction false} TexturesAtSlot(capacity: nat, slots: map<MaterialId, nat>, ms: seq<Material>,
                                          stride: nat, texturesPerMaterial: nat, k: nat, i: nat)
    requires 1 <= texturesPerMaterial <= stride
    requires MaterialsFit(0, |ms|, stride, texturesPerMaterial, capacity)
    requires k < |ms| && i < texturesPerMaterial
    ensures k * stride + i < capacity
    ensures AddMaterials(Cleared(capacity, slots), ms, stride, texturesPerMaterial).textures[k * stride + i]
         == TextureAt(ms[k], i)
  {
    var n := |ms|;
    MulMonotone(k, n - 1, stride);
    MulMonotone(n - 2 + 1, n - 1, stride);
    if k < n - 1 {
      SlotsApart(k, n - 1, stride);
      TexturesAtSlot(capacity, slots, ms[..n - 1], stride, texturesPerMaterial, k, i);
    }
  }

  /** A texture slot outside every material's block stays null. */
  lemma {:induction false} TexturesOffSlot(capacity: nat, slots: map<MaterialId, nat>, ms: seq<Material>,
                                           stride: nat, texturesPerMaterial: nat, j: nat)
    requires 1 <= texturesPerMaterial
    requires MaterialsFit(0, |ms|, stride, texturesPerMaterial, capacity)
    requires j < capacity
    requires forall k :: 0 <= k < |ms| ==> !(k * stride <= j < k * stride + texturesPerMaterial)
    ensures AddMaterials(Cleared(capacity, slots), ms, stride, texturesPerMaterial).textures[j] == None
  {
    if ms != [] {
      var n := |ms|;
      MulMonotone(n - 2 + 1, n - 1, stride);
      TexturesOffSlot(capacity, slots, ms[..n - 1], stride, texturesPerMaterial, j);
    }
  }

  /** SetIndex: a material records the slot of its last occurrence in the run; a material
      that does not occur keeps whatever it recorded before. */
  lemma {:induction false} RecordedSlot(t: MaterialTables, ms: seq<Material>, stride: nat,
                                        texturesPerMaterial: nat, k: nat)
    requires 1 <= texturesPerMaterial
    requires |t.properties| == |t.textures| && t.uniqueIds == {}
    requires MaterialsFit(t.index, |ms|, stride, texturesPerMaterial, |t.textures|)
    requires k < |ms| && forall j :: k < j < |ms| ==> ms[j].id != ms[k].id
    ensures var r := AddMaterials(t, ms, stride, texturesPerMaterial);
      ms[k].id in r.slots && r.slots[ms[k].id] == t.index + k * stride
  {
    var n := |ms|;
    MulMonotone(n - 2 + 1, n - 1, stride);
    if k < n - 1 {
      RecordedSlot(t, ms[..n - 1], stride, texturesPerMaterial, k);
    }
  }

  lemma {:induction false} UnrecordedSlot(t: MaterialTables, ms: seq<Material>, stride: nat,
                                          texturesPerMaterial: nat, id: MaterialId)
    requires 1 <= texturesPerMaterial
    requires |t.properties| == |t.textures| && t.uniqueIds == {}
    requires MaterialsFit(t.index, |ms|, stride, texturesPerMaterial, |t.textures|)
    requires forall j :: 0 <= j < |ms| ==> ms[j].id != id
    ensures var r := AddMaterials(t, ms, stride, texturesPerMaterial);
      (id in r.slots <==> id in t.slots) && (id in t.slots ==> r.slots[id] == t.slots[id])
  {
    if ms != [] {
      var n := |ms|;
      MulMonotone(n - 2 + 1, n - 1, stride);
      UnrecordedSlot(t, ms[..n - 1], stride, texturesPerMaterial, id);
    }
  }

  /** Two renderables sharing one material take two slots: the id lookup never hits. */
  lemma SharedMaterialTakesTwoSlots(capacity: nat, slots: map<MaterialId, nat>, m: Material,
                                    stride: nat, texturesPerMaterial: nat)
    requires 1 <= texturesPerMaterial <= stride
    requires stride + texturesPerMaterial <= capacity
    ensures var r := AddMaterials(Cleared(capacity, slots), [m, m], stride, texturesPerMaterial);
      && r.index == 2 * stride
      && r.properties[0] == r.properties[stride] == MaterialRecord(MaterialFlagWord(m.features))
      && r.slots[m.id] == stride
  {
    PropertiesAtSlot(capacity, slots, [m, m], stride, texturesPerMaterial, 0);
    PropertiesAtSlot(capacity, slots, [m, m], stride, texturesPerMaterial, 1);
    RecordedSlot(Cleared(capacity, slots), [m, m], stride, texturesPerMaterial, 1);
  }

  /** The material an entity contributes to a rebuild: its Renderable's, when it has both. */
  function EntityMaterials(e: Entity): seq<Material>
  {
    if e.renderable.Some? && e.renderable.value.material.Some? then [e.renderable.value.material.value] else []
  }

  /** The materials of a bucket's entities, in bucket order. */
  function MaterialsOf(es: seq<Entity>): seq<Material>
  {
    if es == [] then [] else MaterialsOf(es[..|es| - 1]) + EntityMaterials(es[|es| - 1])
  }

  lemma {:induction false} MaterialsOfConcat(a: seq<Entity>, b: seq<Entity>)
    ensures MaterialsOf(a + b) == MaterialsOf(a) + MaterialsOf(b)
  {
    if b == [] {
      assert a + b == a;
    } else {
      assert (a + b)[..|a + b| - 1] == a + b[..|b| - 1];
      MaterialsOfConcat(a, b[..|b| - 1]);
    }
  }

  /** The materials before entity i, and entity i's own, come from a prefix of the bucket. */
  lemma MaterialsOfPrefix(es: seq<Entity>, i: nat)
    requires i < |es|
    ensures MaterialsOf(es[..i + 1]) == MaterialsOf(es[..i]) + EntityMaterials(es[i])
    ensures |MaterialsOf(es[..i + 1])| <= |MaterialsOf(es)|
  {
    assert es[..i + 1][..i] == es[..i];
    assert es == es[..i + 1] + es[i + 1..];
    MaterialsOfConcat(es[..i + 1], es[i + 1..]);
  }

  /** The order in which a materials rebuild meets materials: the Geometry,
      GeometryInstanced, GeometryTransparent and GeometryTransparentInstanced buckets. */
  function MaterialOrder(r: Buckets): seq<Material>
  {
    MaterialsOf(Bucket(r, Geometry)) + MaterialsOf(Bucket(r, GeometryInstanced))
      + MaterialsOf(Bucket(r, GeometryTransparent)) + MaterialsOf(Bucket(r, GeometryTransparentInstanced))
  }

  /** Fewer materials fit wherever more do, and the one after the first `count` has room. */
  lemma FitPrefix(start: nat, count: nat, total: nat, stride: nat, texturesPerMaterial: nat, capacity: nat)
    requires count <= total && MaterialsFit(start, total, stride, texturesPerMaterial, capacity)
    ensures MaterialsFit(start, count, stride, texturesPerMaterial, capacity)
    ensures count < total ==> start + count * stride + texturesPerMaterial <= capacity
  {
    if count < total {
      MulMonotone(count, total - 1, stride);
    } else if count > 0 {
      MulMonotone(count - 1, total - 1, stride);
    }
  }

  /** One bucket after others: it fits where the earlier ones stopped, and processing it
      continues the run over the concatenation. */
  lemma NextBucketFits(t: MaterialTables, done: seq<Material>, next: seq<Material>, total: nat,
                       stride: nat, texturesPerMaterial: nat)
    requires 1 <= texturesPerMaterial
    requires |t.properties| == |t.textures| && t.uniqueIds == {}
    requires |done| + |next| <= total && MaterialsFit(t.index, total, stride, texturesPerMaterial, |t.textures|)
    ensures MaterialsFit(t.index, |done + next|, stride, texturesPerMaterial, |t.textures|)
    ensures MaterialsFit(t.index, |done|, stride, texturesPerMaterial, |t.textures|)
    ensures MaterialsFit(t.index + |done| * stride, |next|, stride, texturesPerMaterial, |t.textures|)
    ensures AddMaterials(AddMaterials(t, done, stride, texturesPerMaterial), next, stride, texturesPerMaterial)
         == AddMaterials(t, done + next, stride, texturesPerMaterial)
  {
    FitPrefix(t.index, |done + next|, total, stride, texturesPerMaterial, |t.textures|);
    AddMaterialsConcat(t, done, next, stride, texturesPerMaterial);
  }

  /** Texture `variation` of type `kind` sits inside the material's block of slots. */
  lemma SlotInBlock(kind: nat, variation: nat, typeCount: nat, perType: nat)
    requires kind < typeCount && variation < perType
    ensures kind * perType + variation < typeCount * perType
  {
    MulMonotone(kind + 1, typeCount, perType);
    assert (kind + 1) * perType == kind * perType + perType;
  }
}
