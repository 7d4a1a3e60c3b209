/**
 * Entity staging and classification: which staged entities survive
 * OnWorldResolved, which buckets promotion puts each entity in, and which camera
 * promotion leaves active.
 */
module Classification {
  import opened RendererTypes

  /** The elements of `es` that satisfy `keep`, in their original order. */
  function Select(es: seq<Entity>, keep: Entity -> bool): seq<Entity>
  {
    if es == [] then [] else
      var rest := Select(es[..|es| - 1], keep);
      if keep(es[|es| - 1]) then rest + [es[|es| - 1]] else rest
  }

  lemma {:induction false} SelectMembership(es: seq<Entity>, keep: Entity -> bool, e: Entity)
    ensures e in Select(es, keep) <==> e in es && keep(e)
  {
    if es != [] {
      SelectMembership(es[..|es| - 1], keep, e);
      assert es == es[..|es| - 1] + [es[|es| - 1]];
    }
  }

  /** Selecting from a concatenation selects from each part, keeping the parts in order. */
  lemma {:induction false} SelectConcat(a: seq<Entity>, b: seq<Entity>, keep: Entity -> bool)
    ensures Select(a + b, keep) == Select(a, keep) + Select(b, keep)
  {
    if b != [] {
      assert (a + b)[..|a + b| - 1] == a + b[..|b| - 1];
      SelectConcat(a, b[..|b| - 1], keep);
    } else {
      assert a + b == a;
    }
  }

  /** OnWorldResolved's filter: the recursively active entities, in input order. */
  function ActiveEntities(es: seq<Entity>): seq<Entity>
  {
    Select(es, (e: Entity) => e.activeRecursively)
  }

  /** The geometry bucket a Renderable goes to, or none for an invisible one. */
  function GeometryBucket(r: Renderable): Option<Category>
  {
    var isTransparent := r.material.Some? && r.material.value.alpha < 1.0;
    var isVisible := !(r.material.Some? && r.material.value.alpha == 0.0);
    if !isVisible then None
    else if isTransparent then Some(if r.instancing then GeometryTransparentInstanced else GeometryTransparent)
    else Some(if r.instancing then GeometryInstanced else Geometry)
  }

  /** Without a material a Renderable is visible and opaque; with one, alpha 0 hides it
      and alpha below 1 makes it transparent; the instancing flag picks the instanced
      variant; a visible Renderable always lands in one of the four geometry buckets. */
  lemma GeometryBucketClassifies(r: Renderable)
    ensures GeometryBucket(r).None? <==> r.material.Some? && r.material.value.alpha == 0.0
    ensures GeometryBucket(r).Some? ==>
      (GeometryBucket(r).value in {GeometryTransparent, GeometryTransparentInstanced} <==>
       r.material.Some? && r.material.value.alpha < 1.0)
    ensures GeometryBucket(r).Some? ==>
      (GeometryBucket(r).value in {GeometryInstanced, GeometryTransparentInstanced} <==> r.instancing)
    ensures GeometryBucket(r).Some? ==>
      GeometryBucket(r).value in {Geometry, GeometryInstanced, GeometryTransparent, GeometryTransparentInstanced}
  {
  }

  /** The entity belongs in bucket `c`. */
  predicate InCategory(e: Entity, c: Category)
  {
    match c
    case Light => e.light.Some?
    case Camera => e.camera
    case AudioSource => e.audioSource
    case _ => e.renderable.Some? && GeometryBucket(e.renderable.value) == Some(c)
  }

  /** An entity is in at most one geometry bucket, and in none when its material's alpha is 0. */
  lemma GeometryBucketsExclusive(e: Entity, c1: Category, c2: Category)
    requires c1 in {Geometry, GeometryInstanced, GeometryTransparent, GeometryTransparentInstanced}
    requires c2 in {Geometry, GeometryInstanced, GeometryTransparent, GeometryTransparentInstanced}
    requires InCategory(e, c1) && InCategory(e, c2)
    ensures c1 == c2
    ensures !(e.renderable.value.material.Some? && e.renderable.value.material.value.alpha == 0.0)
  {
  }

  type Buckets = map<Category, seq<Entity>>

  /** Reading a bucket: a category never appended to is empty. */
  function Bucket(r: Buckets, c: Category): seq<Entity>
  {
    if c in r then r[c] else []
  }

  /** Appending to bucket `c`. */
  function Append(r: Buckets, c: Category, e: Entity): Buckets
  {
    r[c := Bucket(r, c) + [e]]
  }

  /** Appending to one bucket extends that bucket by the entity and leaves the others alone. */
  lemma AppendBucket(r: Buckets, c: Category, e: Entity, d: Category)
    ensures Bucket(Append(r, c, e), d) == if d == c then Bucket(r, c) + [e] else Bucket(r, d)
  {
  }

  /** Promotion of one entity: its geometry bucket, then Light, Camera and AudioSource. */
  function AddEntity(r: Buckets, e: Entity): Buckets
  {
    var r1 := GeometryStep(r, e);
    var r2 := if e.light.Some? then Append(r1, Light, e) else r1;
    var r3 := if e.camera then Append(r2, Camera, e) else r2;
    if e.audioSource then Append(r3, AudioSource, e) else r3
  }

  /** The renderable set that promotion builds from an empty one. */
  function Promoted(es: seq<Entity>): Buckets
  {
    if es == [] then map[] else AddEntity(Promoted(es[..|es| - 1]), es[|es| - 1])
  }

  /** Each bucket of the promoted set holds exactly the staged entities of that
      category, in staging order. */
  lemma {:induction false} PromotedBucket(es: seq<Entity>, c: Category)
    ensures Bucket(Promoted(es), c) == Select(es, (e: Entity) => InCategory(e, c))
  {
    if es != [] {
      var prefix := es[..|es| - 1];
      PromotedBucket(prefix, c);
      AddEntityBucket(Promoted(prefix), es[|es| - 1], c);
    }
  }

  /** Promoting one entity appends it to exactly the buckets it belongs in. */
  lemma AddEntityBucket(r: Buckets, e: Entity, c: Category)
    ensures InCategory(e, c) ==> Bucket(AddEntity(r, e), c) == Bucket(r, c) + [e]
    ensures !InCategory(e, c) ==> Bucket(AddEntity(r, e), c) == Bucket(r, c)
  {
    var r1 := GeometryStep(r, e);
    GeometryStepBucket(r, e, c);
    ComponentBuckets(r1, e, c);
    if c == Light || c == Camera || c == AudioSource {
      assert Bucket(r1, c) == Bucket(r, c);
    } else {
      assert Bucket(r1, c) + [] == Bucket(r1, c);
    }
  }

  /** The geometry step of promotion. */
  function GeometryStep(r: Buckets, e: Entity): Buckets
  {
    if e.renderable.Some? && GeometryBucket(e.renderable.value).Some?
    then Append(r, GeometryBucket(e.renderable.value).value, e) else r
  }

  /** The geometry step appends to the entity's geometry bucket only. */
  lemma GeometryStepBucket(r: Buckets, e: Entity, c: Category)
    ensures Bucket(GeometryStep(r, e), c) ==
      if c != Light && c != Camera && c != AudioSource && InCategory(e, c) then Bucket(r, c) + [e] else Bucket(r, c)
  {
    if e.renderable.Some? && GeometryBucket(e.renderable.value).Some? {
      AppendBucket(r, GeometryBucket(e.renderable.value).value, e, c);
    }
  }

  /** The Light, Camera and AudioSource steps of promotion append to their own bucket only. */
  lemma ComponentBuckets(r1: Buckets, e: Entity, c: Category)
    ensures var r2 := if e.light.Some? then Append(r1, Light, e) else r1;
      var r3 := if e.camera then Append(r2, Camera, e) else r2;
      var r4 := if e.audioSource then Append(r3, AudioSource, e) else r3;
      Bucket(r4, c) == Bucket(r1, c) + (if (c == Light || c == Camera || c == AudioSource) && InCategory(e, c)
                                        then [e] else [])
  {
    var r2 := if e.light.Some? then Append(r1, Light, e) else r1;
    var r3 := if e.camera then Append(r2, Camera, e) else r2;
    if e.light.Some? { AppendBucket(r1, Light, e, c); }
    if e.camera { AppendBucket(r2, Camera, e, c); }
    if e.audioSource { AppendBucket(r3, AudioSource, e, c); }
    if c != Light && c != Camera && c != AudioSource {
      assert Bucket(r1, c) + [] == Bucket(r1, c);
    }
  }

  /** An entity lands in a bucket of the promoted set iff it was staged and belongs there. */
  lemma PromotedMembership(es: seq<Entity>, c: Category, e: Entity)
    ensures e in Bucket(Promoted(es), c) <==> e in es && InCategory(e, c)
  {
    PromotedBucket(es, c);
    SelectMembership(es, (x: Entity) => InCategory(x, c), e);
  }

  /** The camera promotion leaves active: the last staged entity with a camera. */
  function LastCamera(es: seq<Entity>): Option<Entity>
  {
    if es == [] then None
    else if es[|es| - 1].camera then Some(es[|es| - 1])
    else LastCamera(es[..|es| - 1])
  }

  /** No camera is left active exactly when no staged entity has one; otherwise it is a
      staged camera entity with no camera entity after it. */
  lemma {:induction false} LastCameraIsLast(es: seq<Entity>)
    ensures LastCamera(es).None? <==> forall i :: 0 <= i < |es| ==> !es[i].camera
    ensures LastCamera(es).Some? ==>
      exists i :: 0 <= i < |es| && es[i] == LastCamera(es).value && es[i].camera &&
                  forall j :: i < j < |es| ==> !es[j].camera
  {
    if es != [] && !es[|es| - 1].camera {
      var prefix := es[..|es| - 1];
      LastCameraIsLast(prefix);
      assert forall i :: 0 <= i < |prefix| ==> prefix[i] == es[i];
      if LastCamera(prefix).Some? {
        var i :| 0 <= i < |prefix| && prefix[i] == LastCamera(prefix).value && prefix[i].camera &&
                 forall j :: i < j < |prefix| ==> !prefix[j].camera;
        assert es[i] == LastCamera(es).value;
      }
    } else if es != [] {
      assert es[|es| - 1] == LastCamera(es).value;
    }
  }
}
