/**
 * The encoded quad layout: word offsets and strides, and the header-word and
 * geometry helpers that the quad view calls but whose bit layout and
 * floating-point maths are not part of this model. Those helpers are the
 * fields of a `Format` value, so every property proved about a view holds for
 * every way of packing the header word.
 */
module EncodingFormat {
  import opened Wrappers

  /** One Java `int` of the encoding, as its 32-bit two's-complement pattern. */
  type Word = bv32

  /** The Java int -1: "no colour index" and the all-white colour. */
  const MINUS_ONE: Word := 0xFFFF_FFFF

  // Header words, relative to a quad's base index.
  const HEADER_BITS: nat := 0
  const HEADER_COLOR_INDEX: nat := 1
  const HEADER_TAG: nat := 2
  const HEADER_STRIDE: nat := 3

  // Vertex attribute offsets; vertex v's attribute lives at v * VERTEX_STRIDE + offset.
  const VERTEX_X: nat := HEADER_STRIDE + 0
  const VERTEX_Y: nat := HEADER_STRIDE + 1
  const VERTEX_Z: nat := HEADER_STRIDE + 2
  const VERTEX_COLOR: nat := HEADER_STRIDE + 3
  const VERTEX_U: nat := HEADER_STRIDE + 4
  const VERTEX_V: nat := VERTEX_U + 1
  const VERTEX_LIGHTMAP: nat := HEADER_STRIDE + 6
  const VERTEX_NORMAL: nat := HEADER_STRIDE + 7
  const VERTEX_STRIDE: nat := 8

  /** The four vertex records, which is also the vanilla quad size. */
  const QUAD_STRIDE: nat := VERTEX_STRIDE * 4
  /** One whole encoded quad. */
  const TOTAL_STRIDE: nat := HEADER_STRIDE + QUAD_STRIDE

  /** The words of one encoded quad. */
  type Window = w: seq<Word> | |w| == TOTAL_STRIDE witness seq(TOTAL_STRIDE, _ => 0)

  /** Minecraft's `Direction`, in declaration order. */
  datatype Face = Down | Up | North | South | West | East

  /** The face id that stands for "no face" (`null`). */
  const NULL_FACE_ID: nat := 6

  /** `ModelHelper.faceFromIndex`: ids 0..5 in `Direction` order, then `null`. */
  function FaceFromIndex(i: nat): (f: Option<Face>)
    requires i <= NULL_FACE_ID
    ensures f == None <==> i == NULL_FACE_ID
    ensures f.Some? ==> FaceIndex(f.value) == i
  {
    match i
    case 0 => Some(Down)
    case 1 => Some(Up)
    case 2 => Some(North)
    case 3 => Some(South)
    case 4 => Some(West)
    case 5 => Some(East)
    case _ => None
  }

  /** `Direction.getId()`. */
  function FaceIndex(f: Face): nat
  {
    match f
    case Down => 0
    case Up => 1
    case North => 2
    case South => 3
    case West => 4
    case East => 5
  }

  /** Every face id names a different face, and every face has an id. */
  lemma FaceIndexRoundTrip(f: Face)
    ensures FaceIndex(f) < NULL_FACE_ID && FaceFromIndex(FaceIndex(f)) == Some(f)
  {
    match f
    case Down =>
    case Up =>
    case North =>
    case South =>
    case West =>
    case East =>
  }

  /** Fabric's `BlendMode`. */
  datatype BlendMode = Default | Solid | CutoutMipped | Cutout | Translucent

  /** A decoded `RenderMaterialImpl.Value`, for its only texture layer (layer 0). */
  datatype Material = Material(blendMode: BlendMode, disableColorIndex: bool, emissive: bool, disableDiffuse: bool)

  /** A float vector, each component as its raw IEEE-754 bit pattern. */
  datatype Vec3 = Vec3(x: Word, y: Word, z: Word)

  /** A vanilla `BakedQuad`: its 32 vertex words, tint index, face and shade flag. */
  datatype BakedQuad = BakedQuad(vertexData: seq<Word>, colorIndex: Word, face: Face, shade: bool)

  /** The geometry flags are `GeometryHelper`'s three flag bits, so the header keeps three bits of them. */
  const GEOMETRY_MASK: Word := 0x7

  /**
   * The helpers behind the encoding: the header-field decoders and encoders of
   * `EncodingFormat`, the derivations of `NormalHelper` and `GeometryHelper`
   * (each reads the quad's words and, where the source reads it, the face
   * normal just computed), and the two whole-quad writes of the mutable view
   * (`clear` and `fromVanilla`).
   */
  datatype Format = Format(
    material: Word -> Material,
    withMaterial: (Word, Material) -> Word,
    cullFace: Word -> Option<Face>,
    lightFace: Word -> Face,
    withLightFace: (Word, Face) -> Word,
    normalFlags: Word -> Word,
    geometryFlags: Word -> Word,
    withGeometryFlags: (Word, Word) -> Word,
    faceNormalOf: Window -> Vec3,
    lightFaceOf: (Window, Vec3) -> Face,
    shapeFlagsOf: (Window, Vec3) -> Word,
    unpackNormal: Word -> Vec3,
    cleared: Window,
    fromVanilla: (BakedQuad, Option<Face>) -> Window)

  /**
   * What the view assumes of the header packing, whose code is not part of
   * this model: the material, light face and geometry-flag encoders store
   * their value (the geometry flags masked to their three bits) and leave the
   * material, cull face, light face, normal flags and geometry flags they do
   * not write as they were; the normal flags are a four-bit per-vertex mask.
   */
  ghost predicate Lawful(f: Format)
  {
    (forall h, m :: f.material(f.withMaterial(h, m)) == m) &&
    (forall h, m :: f.cullFace(f.withMaterial(h, m)) == f.cullFace(h)) &&
    (forall h, m :: f.lightFace(f.withMaterial(h, m)) == f.lightFace(h)) &&
    (forall h, m :: f.normalFlags(f.withMaterial(h, m)) == f.normalFlags(h)) &&
    (forall h, m :: f.geometryFlags(f.withMaterial(h, m)) == f.geometryFlags(h)) &&
    (forall h, l :: f.lightFace(f.withLightFace(h, l)) == l) &&
    (forall h, l :: f.material(f.withLightFace(h, l)) == f.material(h)) &&
    (forall h, l :: f.cullFace(f.withLightFace(h, l)) == f.cullFace(h)) &&
    (forall h, l :: f.normalFlags(f.withLightFace(h, l)) == f.normalFlags(h)) &&
    (forall h, l :: f.geometryFlags(f.withLightFace(h, l)) == f.geometryFlags(h)) &&
    (forall h, g :: f.geometryFlags(f.withGeometryFlags(h, g)) == g & GEOMETRY_MASK) &&
    (forall h, g :: f.material(f.withGeometryFlags(h, g)) == f.material(h)) &&
    (forall h, g :: f.cullFace(f.withGeometryFlags(h, g)) == f.cullFace(h)) &&
    (forall h, g :: f.lightFace(f.withGeometryFlags(h, g)) == f.lightFace(h)) &&
    (forall h, g :: f.normalFlags(f.withGeometryFlags(h, g)) == f.normalFlags(h)) &&
    (forall h :: f.normalFlags(h) <= 0xF)
  }

  /** Assumed of the packing: writing the light face stores it and keeps the material, cull face, normal flags and geometry flags. */
  lemma WithLightFaceLaw(f: Format, h: Word, l: Face)
    requires Lawful(f)
    ensures f.lightFace(f.withLightFace(h, l)) == l
    ensures f.material(f.withLightFace(h, l)) == f.material(h)
    ensures f.cullFace(f.withLightFace(h, l)) == f.cullFace(h)
    ensures f.normalFlags(f.withLightFace(h, l)) == f.normalFlags(h)
    ensures f.geometryFlags(f.withLightFace(h, l)) == f.geometryFlags(h)
  {
  }

  /** Assumed of the packing: writing the geometry flags stores their three bits and keeps the material, cull face, light face and normal flags. */
  lemma WithGeometryFlagsLaw(f: Format, h: Word, g: Word)
    requires Lawful(f)
    ensures f.geometryFlags(f.withGeometryFlags(h, g)) == g & GEOMETRY_MASK
    ensures f.material(f.withGeometryFlags(h, g)) == f.material(h)
    ensures f.cullFace(f.withGeometryFlags(h, g)) == f.cullFace(h)
    ensures f.lightFace(f.withGeometryFlags(h, g)) == f.lightFace(h)
    ensures f.normalFlags(f.withGeometryFlags(h, g)) == f.normalFlags(h)
  {
  }

  /** Assumed of the packing: writing the material stores it and keeps every other header field. */
  lemma WithMaterialLaw(f: Format, h: Word, m: Material)
    requires Lawful(f)
    ensures f.material(f.withMaterial(h, m)) == m
    ensures f.cullFace(f.withMaterial(h, m)) == f.cullFace(h)
    ensures f.lightFace(f.withMaterial(h, m)) == f.lightFace(h)
    ensures f.normalFlags(f.withMaterial(h, m)) == f.normalFlags(h)
    ensures f.geometryFlags(f.withMaterial(h, m)) == f.geometryFlags(h)
  {
  }

  /** Assumed of the packing: the normal flags fit in four bits, one per vertex. */
  lemma NormalFlagsFourBits(f: Format, h: Word)
    requires Lawful(f)
    ensures f.normalFlags(h) <= 0xF
  {
  }

  /** The offsets that address one attribute of a vertex record. */
  predicate IsVertexOffset(offset: nat)
  {
    HEADER_STRIDE <= offset < HEADER_STRIDE + VERTEX_STRIDE
  }

  /** Where attribute `offset` of vertex `v` lives, relative to the base index. */
  function VertexWord(v: nat, offset: nat): (k: nat)
    requires v < 4 && IsVertexOffset(offset)
    ensures HEADER_STRIDE <= k < TOTAL_STRIDE
    ensures k - HEADER_STRIDE == v * VERTEX_STRIDE + (offset - HEADER_STRIDE)
  {
    v * VERTEX_STRIDE + offset
  }

  /** Vertex records never overlap each other or the header: distinct (vertex, attribute) pairs name distinct words. */
  lemma VertexWordInjective(v1: nat, o1: nat, v2: nat, o2: nat)
    requires v1 < 4 && IsVertexOffset(o1) && v2 < 4 && IsVertexOffset(o2)
    requires VertexWord(v1, o1) == VertexWord(v2, o2)
    ensures v1 == v2 && o1 == o2
  {
  }

  /** `s` written over `a` from index `at` on; the rest of `a` kept (what `System.arraycopy` leaves). */
  function Splice(a: seq<Word>, at: nat, s: seq<Word>): (r: seq<Word>)
    requires at + |s| <= |a|
    ensures |r| == |a|
    ensures forall k :: 0 <= k < |a| ==> r[k] == if at <= k < at + |s| then s[k - at] else a[k]
  {
    a[..at] + s + a[at + |s|..]
  }

  /** `System.arraycopy(src, ..., dst, at, |src|)`; `src` is read in full before `dst` is written, as Java specifies for overlapping copies. */
  method ArrayCopy(src: seq<Word>, dst: array<Word>, at: nat)
    requires at + |src| <= dst.Length
    modifies dst
    ensures dst[..] == Splice(old(dst[..]), at, src)
  {
    forall i | 0 <= i < |src| {
      dst[at + i] := src[i];
    }
    assert forall k :: 0 <= k < dst.Length ==> dst[..][k] == Splice(old(dst[..]), at, src)[k];
  }
}
