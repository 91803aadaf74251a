/**
 * `QuadViewImpl`: a view of one encoded quad inside an `int[]`, with the
 * derived light face, geometry flags and face normal computed lazily and
 * cached until the invalid flag is set again.
 */
module QuadViews {
  import opened Wrappers
  import opened EncodingFormat

  /** The illegal-argument failure of the sprite accessors. */
  datatype Failure = UnsupportedSpriteIndex(spriteIndex: int)

  /**
   * The header word once derived: the light face is written first, from the
   * face normal just computed; the geometry flags second, from the quad that
   * already carries the new light face.
   */
  function DerivedHeader(f: Format, w: Window): Word
  {
    var n := f.faceNormalOf(w);
    var withLight := f.withLightFace(w[HEADER_BITS], f.lightFaceOf(w, n));
    f.withGeometryFlags(withLight, f.shapeFlagsOf(w[HEADER_BITS := withLight], n))
  }

  /** The quad's words after `computeGeometry` ran with the invalid flag `invalid`. */
  function Geometry(f: Format, invalid: bool, w: Window): (r: Window)
    ensures forall k :: 0 <= k < TOTAL_STRIDE && k != HEADER_BITS ==> r[k] == w[k]
    ensures !invalid ==> r == w
    ensures invalid ==> r[HEADER_BITS] == DerivedHeader(f, w)
  {
    if invalid then w[HEADER_BITS := DerivedHeader(f, w)] else w
  }

  /**
   * Under the packing laws, derivation stores the light face the geometry
   * helper computed and the shape flags computed from the quad carrying it,
   * and keeps the material, cull face and normal flags the quad had.
   */
  lemma DerivedHeaderFields(f: Format, w: Window)
    requires Lawful(f)
    ensures f.lightFace(DerivedHeader(f, w)) == f.lightFaceOf(w, f.faceNormalOf(w))
    ensures var n := f.faceNormalOf(w);
            var withLight := f.withLightFace(w[HEADER_BITS], f.lightFaceOf(w, n));
            f.geometryFlags(DerivedHeader(f, w)) == f.shapeFlagsOf(w[HEADER_BITS := withLight], n) & GEOMETRY_MASK
    ensures f.material(DerivedHeader(f, w)) == f.material(w[HEADER_BITS])
    ensures f.cullFace(DerivedHeader(f, w)) == f.cullFace(w[HEADER_BITS])
    ensures f.normalFlags(DerivedHeader(f, w)) == f.normalFlags(w[HEADER_BITS])
  {
    var n := f.faceNormalOf(w);
    var withLight := f.withLightFace(w[HEADER_BITS], f.lightFaceOf(w, n));
    var flags := f.shapeFlagsOf(w[HEADER_BITS := withLight], n);
    assert DerivedHeader(f, w) == f.withGeometryFlags(withLight, flags);
    WithLightFaceLaw(f, w[HEADER_BITS], f.lightFaceOf(w, n));
    WithGeometryFlagsLaw(f, withLight, flags);
  }

  /** The flag of vertex `v` in a normal mask, Java's `1 << v`. */
  function VertexBit(v: nat): (b: Word)
    requires v < 4
    ensures b == (1 as Word) << v
  {
    match v
    case 0 => 1
    case 1 => 2
    case 2 => 4
    case _ => 8
  }

  /** Whether vertex `v` has its flag set in `flags`: `(flags & (1 << v)) != 0`. */
  function NormalBit(flags: Word, v: nat): bool
    requires v < 4
  {
    flags & VertexBit(v) != 0
  }

  /** A four-bit normal mask is non-zero exactly when one of the four vertices has its bit set. */
  lemma AnyNormalBit(flags: Word)
    requires flags <= 0xF
    ensures flags != 0 <==> exists v :: 0 <= v < 4 && NormalBit(flags, v)
  {
    if flags & 1 != 0 {
      assert NormalBit(flags, 0);
    } else if flags & 2 != 0 {
      assert NormalBit(flags, 1);
    } else if flags & 4 != 0 {
      assert NormalBit(flags, 2);
    } else if flags & 8 != 0 {
      assert NormalBit(flags, 3);
    } else {
      assert flags == 0;
    }
  }

  /** The target's words after `copyTo` as written: word 0 is skipped, every later word comes from the source. */
  function CopiedWindow(src: Window, tgt: Window): (r: Window)
    ensures r[HEADER_BITS] == tgt[HEADER_BITS]
    ensures forall k :: 1 <= k < TOTAL_STRIDE ==> r[k] == src[k]
  {
    tgt[..1] + src[1..]
  }

  /** Copying a quad's words from 1 onwards over the quad at `b` leaves that quad as `CopiedWindow` says. */
  lemma SpliceAfterHeader(t: seq<Word>, b: nat, src: Window)
    requires b + TOTAL_STRIDE <= |t|
    ensures Splice(t, b + 1, src[1..])[b..b + TOTAL_STRIDE] == CopiedWindow(src, t[b..b + TOTAL_STRIDE])
  {
    var r := Splice(t, b + 1, src[1..]);
    var c := CopiedWindow(src, t[b..b + TOTAL_STRIDE]);
    forall k | 0 <= k < TOTAL_STRIDE
      ensures r[b..b + TOTAL_STRIDE][k] == c[k]
    {
      assert r[b..b + TOTAL_STRIDE][k] == r[b + k];
      if k == 0 {
        assert r[b] == t[b];
      } else {
        assert r[b + k] == src[1..][k - 1];
      }
    }
  }

  /** A quad's words copied in whole, then its header word rewritten, is the quad with that header copied in. */
  lemma SpliceHeader(t: seq<Word>, b: nat, src: Window, h: Word)
    requires b + TOTAL_STRIDE <= |t|
    ensures Splice(t, b, src)[b := h] == Splice(t, b, src[HEADER_BITS := h])
    ensures Splice(t, b, src[HEADER_BITS := h])[b..b + TOTAL_STRIDE] == src[HEADER_BITS := h]
  {
    assert Splice(t, b, src)[b := h] == Splice(t, b, src[HEADER_BITS := h]);
  }

  /** The target's words after the corrected copy: everything from the source, then the target's own material put back. */
  function FixedCopiedWindow(f: Format, src: Window, tgt: Window): (r: Window)
    ensures forall k :: 1 <= k < TOTAL_STRIDE ==> r[k] == src[k]
  {
    src[HEADER_BITS := f.withMaterial(src[HEADER_BITS], f.material(tgt[HEADER_BITS]))]
  }

  /**
   * As written, `copyTo` leaves the target's header word alone, and that word
   * holds the cull face, light face, normal flags and geometry flags as well
   * as the material: the target keeps its own values of all five.
   */
  lemma CopiedWindowKeepsTargetHeader(f: Format, src: Window, tgt: Window)
    ensures f.material(CopiedWindow(src, tgt)[HEADER_BITS]) == f.material(tgt[HEADER_BITS])
    ensures f.cullFace(CopiedWindow(src, tgt)[HEADER_BITS]) == f.cullFace(tgt[HEADER_BITS])
    ensures f.lightFace(CopiedWindow(src, tgt)[HEADER_BITS]) == f.lightFace(tgt[HEADER_BITS])
    ensures f.normalFlags(CopiedWindow(src, tgt)[HEADER_BITS]) == f.normalFlags(tgt[HEADER_BITS])
    ensures f.geometryFlags(CopiedWindow(src, tgt)[HEADER_BITS]) == f.geometryFlags(tgt[HEADER_BITS])
  {
  }

  // A lawful packing to exhibit the lost header with. Geometry flags sit in
  // bits 0-2, the cull face in bits 3-5 (id 6 for none), the light face in
  // bits 6-8, the normal flags in bits 9-12, the blend mode in bits 13-15 and
  // the three material flags in bits 16-18. Each field is read and written
  // through its mask, with the field values written out already in place.

  const GEOMETRY_FIELD: Word := 0x7
  const CULL_FIELD: Word := 0x38
  const LIGHT_FIELD: Word := 0x1C0
  const BLEND_FIELD: Word := 0xE000
  const MATERIAL_FIELD: Word := 0x7_E000

  /** The cull-face field of the sample packing; the values 48 and 56 name no face. */
  function SampleCullFace(h: Word): Option<Face>
  {
    CullOf(h & CULL_FIELD)
  }

  function CullOf(c: Word): Option<Face>
  {
    if c == 0x00 then Some(Down) else if c == 0x08 then Some(Up) else if c == 0x10 then Some(North)
    else if c == 0x18 then Some(South) else if c == 0x20 then Some(West) else if c == 0x28 then Some(East)
    else None
  }

  /** A face id, in place in the light-face field. */
  function LightBits(l: Face): (b: Word)
    ensures b & LIGHT_FIELD == b
  {
    match l
    case Down => 0x000
    case Up => 0x040
    case North => 0x080
    case South => 0x0C0
    case West => 0x100
    case East => 0x140
  }

  /** The light-face field of the sample packing; the unused values read as `Down`. */
  function SampleLightFace(h: Word): Face
  {
    LightOf(h & LIGHT_FIELD)
  }

  function LightOf(c: Word): Face
  {
    if c == 0x040 then Up else if c == 0x080 then North else if c == 0x0C0 then South
    else if c == 0x100 then West else if c == 0x140 then East else Down
  }

  function SampleWithLightFace(h: Word, l: Face): Word
  {
    (h & !LIGHT_FIELD) | LightBits(l)
  }

  function SampleNormalFlags(h: Word): Word
  {
    (h & 0x1E00) >> 9
  }

  function SampleGeometryFlags(h: Word): Word
  {
    h & GEOMETRY_FIELD
  }

  function SampleWithGeometryFlags(h: Word, g: Word): Word
  {
    (h & !GEOMETRY_FIELD) | (g & GEOMETRY_MASK)
  }

  /** A blend mode, in place in the blend field. */
  function BlendBits(m: BlendMode): (b: Word)
    ensures b & BLEND_FIELD == b
  {
    match m
    case Default => 0x0000
    case Solid => 0x2000
    case CutoutMipped => 0x4000
    case Cutout => 0x6000
    case Translucent => 0x8000
  }

  /** The blend field of the sample packing; the unused values read as `Default`. */
  function SampleBlendMode(h: Word): BlendMode
  {
    BlendOf(h & BLEND_FIELD)
  }

  function BlendOf(c: Word): BlendMode
  {
    if c == 0x2000 then Solid else if c == 0x4000 then CutoutMipped else if c == 0x6000 then Cutout
    else if c == 0x8000 then Translucent else Default
  }

  /** One material flag at field bit `bit`. */
  function FlagBits(b: bool, bit: Word): Word
  {
    if b then bit else 0
  }

  function SampleMaterial(h: Word): Material
  {
    MaterialOf(h & BLEND_FIELD, h & 0x7_0000)
  }

  function MaterialOf(blend: Word, flags: Word): Material
  {
    Material(BlendOf(blend), flags & 0x1_0000 != 0, flags & 0x2_0000 != 0, flags & 0x4_0000 != 0)
  }

  function MaterialBits(m: Material): (b: Word)
    ensures b & MATERIAL_FIELD == b
  {
    BlendBits(m.blendMode) | FlagBits(m.disableColorIndex, 0x1_0000) | FlagBits(m.emissive, 0x2_0000) |
    FlagBits(m.disableDiffuse, 0x4_0000)
  }

  function SampleWithMaterial(h: Word, m: Material): Word
  {
    (h & !MATERIAL_FIELD) | MaterialBits(m)
  }

  /** The sample packing, with trivial geometry helpers and a cleared quad whose cull face is none. */
  function SampleFormat(): Format
  {
    Format(
      SampleMaterial, SampleWithMaterial, SampleCullFace, SampleLightFace, SampleWithLightFace,
      SampleNormalFlags, SampleGeometryFlags, SampleWithGeometryFlags,
      w => Vec3(0, 0, 0),
      (w, n) => Down,
      (w, n) => 0,
      x => Vec3(0, 0, 0),
      seq(TOTAL_STRIDE, k => if k == HEADER_BITS then 0x30 else 0),
      (q, c) => seq(TOTAL_STRIDE, _ => 0))
  }

  /** The sample material field stores a material. */
  lemma SampleMaterialStored(h: Word, m: Material)
    ensures SampleMaterial(SampleWithMaterial(h, m)) == m
  {
    var w := SampleWithMaterial(h, m);
    assert w & BLEND_FIELD == BlendBits(m.blendMode);
  }

  /** Two words that agree outside the material field agree on every other field. */
  lemma SampleOutsideMaterial(a: Word, b: Word)
    requires a & !MATERIAL_FIELD == b & !MATERIAL_FIELD
    ensures SampleCullFace(a) == SampleCullFace(b) && SampleLightFace(a) == SampleLightFace(b)
    ensures SampleNormalFlags(a) == SampleNormalFlags(b) && SampleGeometryFlags(a) == SampleGeometryFlags(b)
  {
    assert a & CULL_FIELD == b & CULL_FIELD;
    assert a & LIGHT_FIELD == b & LIGHT_FIELD;
    assert a & 0x1E00 == b & 0x1E00;
    assert a & GEOMETRY_FIELD == b & GEOMETRY_FIELD;
  }

  /** Two words that agree outside the geometry field agree on every other field. */
  lemma SampleOutsideGeometry(a: Word, b: Word)
    requires a & !GEOMETRY_FIELD == b & !GEOMETRY_FIELD
    ensures SampleMaterial(a) == SampleMaterial(b) && SampleCullFace(a) == SampleCullFace(b)
    ensures SampleLightFace(a) == SampleLightFace(b) && SampleNormalFlags(a) == SampleNormalFlags(b)
  {
    assert a & BLEND_FIELD == b & BLEND_FIELD;
    assert a & 0x7_0000 == b & 0x7_0000;
    assert a & CULL_FIELD == b & CULL_FIELD;
    assert a & LIGHT_FIELD == b & LIGHT_FIELD;
    assert a & 0x1E00 == b & 0x1E00;
  }

  /** The material laws of the sample packing. */
  lemma SampleMaterialLaws(h: Word, m: Material)
    ensures SampleMaterial(SampleWithMaterial(h, m)) == m
    ensures SampleCullFace(SampleWithMaterial(h, m)) == SampleCullFace(h) && SampleLightFace(SampleWithMaterial(h, m)) == SampleLightFace(h)
    ensures SampleNormalFlags(SampleWithMaterial(h, m)) == SampleNormalFlags(h) && SampleGeometryFlags(SampleWithMaterial(h, m)) == SampleGeometryFlags(h)
  {
    SampleMaterialStored(h, m);
    assert SampleWithMaterial(h, m) & !MATERIAL_FIELD == h & !MATERIAL_FIELD;
    SampleOutsideMaterial(SampleWithMaterial(h, m), h);
  }

  /** The light-face laws of the sample packing. */
  lemma SampleLightFaceLaws(h: Word, l: Face)
    ensures SampleLightFace(SampleWithLightFace(h, l)) == l
    ensures SampleMaterial(SampleWithLightFace(h, l)) == SampleMaterial(h) && SampleCullFace(SampleWithLightFace(h, l)) == SampleCullFace(h)
    ensures SampleNormalFlags(SampleWithLightFace(h, l)) == SampleNormalFlags(h) && SampleGeometryFlags(SampleWithLightFace(h, l)) == SampleGeometryFlags(h)
  {
    SampleLightReads(h, l);
    SampleLightKeeps(h, l);
  }

  /** The light face spliced into a header reads back. */
  lemma SampleLightReads(h: Word, l: Face)
    ensures SampleLightFace(SampleWithLightFace(h, l)) == l
  {
    SampleLightSplice(h, LightBits(l));
    LightRoundTrip(l);
  }

  /** Splicing a light face into `h` keeps every other field of `h`, one field per lemma. */
  lemma SampleLightKeeps(h: Word, l: Face)
    ensures SampleMaterial(SampleWithLightFace(h, l)) == SampleMaterial(h) && SampleCullFace(SampleWithLightFace(h, l)) == SampleCullFace(h)
    ensures SampleNormalFlags(SampleWithLightFace(h, l)) == SampleNormalFlags(h) && SampleGeometryFlags(SampleWithLightFace(h, l)) == SampleGeometryFlags(h)
  {
    KeepsMaterial(h, l);
    KeepsCullFace(h, l);
    KeepsNormalFlags(h, l);
    KeepsGeometryFlags(h, l);
  }

  lemma KeepsMaterial(h: Word, l: Face)
    ensures SampleMaterial(SampleWithLightFace(h, l)) == SampleMaterial(h)
  {
    var w := SampleWithLightFace(h, l);
    assert w & BLEND_FIELD == h & BLEND_FIELD;
    assert w & 0x7_0000 == h & 0x7_0000;
  }

  lemma KeepsCullFace(h: Word, l: Face)
    ensures SampleCullFace(SampleWithLightFace(h, l)) == SampleCullFace(h)
  {
    assert SampleWithLightFace(h, l) & CULL_FIELD == h & CULL_FIELD;
  }

  lemma KeepsNormalFlags(h: Word, l: Face)
    ensures SampleNormalFlags(SampleWithLightFace(h, l)) == SampleNormalFlags(h)
  {
    assert SampleWithLightFace(h, l) & 0x1E00 == h & 0x1E00;
  }

  lemma KeepsGeometryFlags(h: Word, l: Face)
    ensures SampleGeometryFlags(SampleWithLightFace(h, l)) == SampleGeometryFlags(h)
  {
    assert SampleWithLightFace(h, l) & GEOMETRY_FIELD == h & GEOMETRY_FIELD;
  }

  /** Each light face reads back from its own bits. */
  lemma LightRoundTrip(l: Face)
    ensures LightOf(LightBits(l)) == l
  {
  }

  /** Splicing bits `b` of the light-face field into `h` reads back `b` and keeps the rest of `h`. */
  lemma SampleLightSplice(h: Word, b: Word)
    requires b & LIGHT_FIELD == b
    ensures ((h & !LIGHT_FIELD) | b) & LIGHT_FIELD == b
    ensures ((h & !LIGHT_FIELD) | b) & !LIGHT_FIELD == h & !LIGHT_FIELD
  {
  }

  /** The geometry-flag laws of the sample packing. */
  lemma SampleGeometryLaws(h: Word, g: Word)
    ensures SampleGeometryFlags(SampleWithGeometryFlags(h, g)) == g & GEOMETRY_MASK
    ensures SampleMaterial(SampleWithGeometryFlags(h, g)) == SampleMaterial(h) && SampleCullFace(SampleWithGeometryFlags(h, g)) == SampleCullFace(h)
    ensures SampleLightFace(SampleWithGeometryFlags(h, g)) == SampleLightFace(h) && SampleNormalFlags(SampleWithGeometryFlags(h, g)) == SampleNormalFlags(h)
  {
    assert SampleWithGeometryFlags(h, g) & !GEOMETRY_FIELD == h & !GEOMETRY_FIELD;
    SampleOutsideGeometry(SampleWithGeometryFlags(h, g), h);
  }

  /** The sample packing obeys every law the view assumes. */
  lemma SampleFormatLawful()
    ensures Lawful(SampleFormat())
  {
    forall h: Word, m: Material
      ensures SampleMaterial(SampleWithMaterial(h, m)) == m
      ensures SampleCullFace(SampleWithMaterial(h, m)) == SampleCullFace(h) && SampleLightFace(SampleWithMaterial(h, m)) == SampleLightFace(h)
      ensures SampleNormalFlags(SampleWithMaterial(h, m)) == SampleNormalFlags(h) && SampleGeometryFlags(SampleWithMaterial(h, m)) == SampleGeometryFlags(h)
    {
      SampleMaterialLaws(h, m);
    }
    forall h: Word, l: Face
      ensures SampleLightFace(SampleWithLightFace(h, l)) == l
      ensures SampleMaterial(SampleWithLightFace(h, l)) == SampleMaterial(h) && SampleCullFace(SampleWithLightFace(h, l)) == SampleCullFace(h)
      ensures SampleNormalFlags(SampleWithLightFace(h, l)) == SampleNormalFlags(h) && SampleGeometryFlags(SampleWithLightFace(h, l)) == SampleGeometryFlags(h)
    {
      SampleLightFaceLaws(h, l);
    }
    forall h: Word, g: Word
      ensures SampleGeometryFlags(SampleWithGeometryFlags(h, g)) == g & GEOMETRY_MASK
      ensures SampleMaterial(SampleWithGeometryFlags(h, g)) == SampleMaterial(h) && SampleCullFace(SampleWithGeometryFlags(h, g)) == SampleCullFace(h)
      ensures SampleLightFace(SampleWithGeometryFlags(h, g)) == SampleLightFace(h) && SampleNormalFlags(SampleWithGeometryFlags(h, g)) == SampleNormalFlags(h)
    {
      SampleGeometryLaws(h, g);
    }
    forall h: Word
      ensures SampleNormalFlags(h) <= 0xF
    {
    }
  }

  /**
   * A source quad culled on `Up` copied onto a cleared target: as written the
   * target still has no cull face, while the corrected copy gives it `Up`.
   */
  lemma CopyToLosesCullFace()
    ensures Lawful(SampleFormat())
    ensures var f := SampleFormat();
            var src: Window := seq(TOTAL_STRIDE, k => if k == HEADER_BITS then 0x08 else 0);
            var tgt: Window := f.cleared;
            f.cullFace(tgt[HEADER_BITS]) == None &&
            f.cullFace(src[HEADER_BITS]) == Some(Up) &&
            f.cullFace(CopiedWindow(src, tgt)[HEADER_BITS]) == None &&
            f.cullFace(FixedCopiedWindow(f, src, tgt)[HEADER_BITS]) == Some(Up)
  {
    SampleFormatLawful();
    SampleHeaders();
  }

  /** The header words of the copy counterexample, read through the sample packing. */
  lemma SampleHeaders()
    ensures SampleCullFace(0x30) == None && SampleCullFace(0x08) == Some(Up)
    ensures SampleCullFace(SampleWithMaterial(0x08, SampleMaterial(0x30))) == Some(Up)
  {
    assert SampleMaterial(0x30) == Material(Default, false, false, false);
    assert MaterialBits(Material(Default, false, false, false)) == 0;
    assert SampleWithMaterial(0x08, SampleMaterial(0x30)) == 0x08;
  }

  /**
   * The corrected copy does what "copy everything except the material" says:
   * the target keeps its material and takes the source's cull face, light
   * face, normal flags and geometry flags, and every other word.
   */
  lemma FixedCopyKeepsOnlyMaterial(f: Format, src: Window, tgt: Window)
    requires Lawful(f)
    ensures f.material(FixedCopiedWindow(f, src, tgt)[HEADER_BITS]) == f.material(tgt[HEADER_BITS])
    ensures f.cullFace(FixedCopiedWindow(f, src, tgt)[HEADER_BITS]) == f.cullFace(src[HEADER_BITS])
    ensures f.lightFace(FixedCopiedWindow(f, src, tgt)[HEADER_BITS]) == f.lightFace(src[HEADER_BITS])
    ensures f.normalFlags(FixedCopiedWindow(f, src, tgt)[HEADER_BITS]) == f.normalFlags(src[HEADER_BITS])
    ensures f.geometryFlags(FixedCopiedWindow(f, src, tgt)[HEADER_BITS]) == f.geometryFlags(src[HEADER_BITS])
  {
    WithMaterialLaw(f, src[HEADER_BITS], f.material(tgt[HEADER_BITS]));
  }

  class QuadView {
    /** The encoding helpers; the same for every view. */
    const fmt: Format
    var nominalFace: Option<Face>
    /** Set when the header's light face and geometry flags are stale and must be derived again before they are read. */
    var isGeometryInvalid: bool
    var faceNormal: Vec3
    var shade: bool
    var data: array<Word>
    /** The index of the quad's first word, its header word. */
    var baseIndex: nat

    /** The quad lies inside the array. */
    ghost predicate Valid()
      reads this
    {
      baseIndex + TOTAL_STRIDE <= data.Length
    }

    /** The words of this quad. */
    function Words(): Window
      reads this, data
      requires Valid()
    {
      data[baseIndex..baseIndex + TOTAL_STRIDE]
    }

    /** What `load()` establishes: derivation marked done, nominal face the encoded light face, face normal recomputed. */
    ghost predicate Loaded()
      reads this, data
      requires Valid()
    {
      !isGeometryInvalid &&
      nominalFace == Some(fmt.lightFace(Words()[HEADER_BITS])) &&
      faceNormal == fmt.faceNormalOf(Words())
    }

    /** The item context's editor quad: attached to `quadData` at index 0 and cleared. */
    constructor Maker(fmt: Format, quadData: array<Word>)
      requires TOTAL_STRIDE <= quadData.Length
      modifies quadData
      ensures Valid() && this.fmt == fmt && data == quadData && baseIndex == 0
      ensures Words() == fmt.cleared && data[..] == Splice(old(quadData[..]), 0, fmt.cleared)
      ensures isGeometryInvalid && nominalFace == None && shade
    {
      this.fmt := fmt;
      data := quadData;
      baseIndex := 0;
      faceNormal := Vec3(0, 0, 0);
      isGeometryInvalid := true;
      nominalFace := None;
      shade := true;
      new;
      Clear();
    }

    /** Resets the quad to the format's cleared words and marks its geometry invalid. */
    method Clear()
      requires Valid()
      modifies this`isGeometryInvalid, this`nominalFace, this`shade, data
      ensures Words() == fmt.cleared && data[..] == Splice(old(data[..]), baseIndex, fmt.cleared)
      ensures isGeometryInvalid && nominalFace == None && shade
    {
      ArrayCopy(fmt.cleared, data, baseIndex);
      isGeometryInvalid := true;
      nominalFace := None;
      shade := true;
    }

    /**
     * Writes a vanilla quad's encoding over this quad, takes the quad's face
     * as the nominal face and its shade flag; its geometry must be derived again.
     */
    method FromVanilla(q: BakedQuad, cullFace: Option<Face>)
      requires Valid()
      modifies this`isGeometryInvalid, this`nominalFace, this`shade, data
      ensures Words() == fmt.fromVanilla(q, cullFace)
      ensures data[..] == Splice(old(data[..]), baseIndex, fmt.fromVanilla(q, cullFace))
      ensures nominalFace == Some(q.face) && shade == q.shade
      ensures isGeometryInvalid
    {
      ArrayCopy(fmt.fromVanilla(q, cullFace), data, baseIndex);
      nominalFace := Some(q.face);
      shade := q.shade;
      isGeometryInvalid := true;
    }

    /** `load(int[], int)`: attaches the view to `data` at `baseIndex`, then decodes as `load()` does. */
    method LoadAt(data: array<Word>, baseIndex: nat)
      requires baseIndex + TOTAL_STRIDE <= data.Length
      modifies this`data, this`baseIndex, this`isGeometryInvalid, this`nominalFace, this`faceNormal, data
      ensures this.data == data && this.baseIndex == baseIndex && Valid()
      ensures Loaded()
      ensures data[..] == old(data[..])
    {
      this.data := data;
      this.baseIndex := baseIndex;
      Load();
    }

    /**
     * `load()`: clears the invalid flag before reading the light face, so no
     * derivation runs and the nominal face is the light face already encoded.
     */
    method Load()
      requires Valid()
      modifies this`isGeometryInvalid, this`nominalFace, this`faceNormal, data
      ensures Loaded()
      ensures data[..] == old(data[..])
    {
      isGeometryInvalid := false;
      var face := LightFace();
      nominalFace := Some(face);
      faceNormal := fmt.faceNormalOf(Words());
    }

    /**
     * `computeGeometry()`: when the flag is set, clears it, recomputes the face
     * normal and rewrites the header word alone (light face, then geometry
     * flags); when the flag is clear, changes nothing.
     */
    method ComputeGeometry()
      requires Valid()
      modifies this`isGeometryInvalid, this`faceNormal, data
      ensures !isGeometryInvalid
      ensures Words() == Geometry(fmt, old(isGeometryInvalid), old(Words()))
      ensures data[..] == old(data[..])[baseIndex + HEADER_BITS := Geometry(fmt, old(isGeometryInvalid), old(Words()))[HEADER_BITS]]
      ensures faceNormal == if old(isGeometryInvalid) then fmt.faceNormalOf(old(Words())) else old(faceNormal)
    {
      if isGeometryInvalid {
        isGeometryInvalid := false;
        ghost var w := Words();
        faceNormal := fmt.faceNormalOf(Words());
        data[baseIndex + HEADER_BITS] := fmt.withLightFace(data[baseIndex + HEADER_BITS], fmt.lightFaceOf(Words(), faceNormal));
        data[baseIndex + HEADER_BITS] := fmt.withGeometryFlags(data[baseIndex + HEADER_BITS], fmt.shapeFlagsOf(Words(), faceNormal));
        assert Words() == w[HEADER_BITS := DerivedHeader(fmt, w)];
      }
    }

    /** `lightFace()`: derives first, then decodes the header's light face. */
    method LightFace() returns (face: Face)
      requires Valid()
      modifies this`isGeometryInvalid, this`faceNormal, data
      ensures !isGeometryInvalid
      ensures Words() == Geometry(fmt, old(isGeometryInvalid), old(Words()))
      ensures data[..] == old(data[..])[baseIndex + HEADER_BITS := Geometry(fmt, old(isGeometryInvalid), old(Words()))[HEADER_BITS]]
      ensures faceNormal == if old(isGeometryInvalid) then fmt.faceNormalOf(old(Words())) else old(faceNormal)
      ensures face == fmt.lightFace(Words()[HEADER_BITS])
      ensures !old(isGeometryInvalid) ==> face == fmt.lightFace(old(Words())[HEADER_BITS])
      ensures Lawful(fmt) && old(isGeometryInvalid) ==> face == fmt.lightFaceOf(old(Words()), fmt.faceNormalOf(old(Words())))
    {
      ghost var w := Words();
      if Lawful(fmt) {
        DerivedHeaderFields(fmt, w);
      }
      ComputeGeometry();
      face := fmt.lightFace(data[baseIndex + HEADER_BITS]);
    }

    /** `geometryFlags()`: derives first, then decodes the header's geometry flags. */
    method GeometryFlags() returns (flags: Word)
      requires Valid()
      modifies this`isGeometryInvalid, this`faceNormal, data
      ensures !isGeometryInvalid
      ensures Words() == Geometry(fmt, old(isGeometryInvalid), old(Words()))
      ensures data[..] == old(data[..])[baseIndex + HEADER_BITS := Geometry(fmt, old(isGeometryInvalid), old(Words()))[HEADER_BITS]]
      ensures faceNormal == if old(isGeometryInvalid) then fmt.faceNormalOf(old(Words())) else old(faceNormal)
      ensures flags == fmt.geometryFlags(Words()[HEADER_BITS])
      ensures !old(isGeometryInvalid) ==> flags == fmt.geometryFlags(old(Words())[HEADER_BITS])
      ensures Lawful(fmt) && old(isGeometryInvalid) ==>
                var w := old(Words());
                var n := fmt.faceNormalOf(w);
                flags == fmt.shapeFlagsOf(w[HEADER_BITS := fmt.withLightFace(w[HEADER_BITS], fmt.lightFaceOf(w, n))], n) & GEOMETRY_MASK
    {
      ghost var w := Words();
      if Lawful(fmt) {
        DerivedHeaderFields(fmt, w);
      }
      ComputeGeometry();
      flags := fmt.geometryFlags(data[baseIndex + HEADER_BITS]);
    }

    /** `faceNormal()`: derives first, then returns the cached normal. */
    method FaceNormal() returns (n: Vec3)
      requires Valid()
      modifies this`isGeometryInvalid, this`faceNormal, data
      ensures !isGeometryInvalid
      ensures Words() == Geometry(fmt, old(isGeometryInvalid), old(Words()))
      ensures data[..] == old(data[..])[baseIndex + HEADER_BITS := Geometry(fmt, old(isGeometryInvalid), old(Words()))[HEADER_BITS]]
      ensures n == faceNormal
      ensures n == if old(isGeometryInvalid) then fmt.faceNormalOf(old(Words())) else old(faceNormal)
    {
      ComputeGeometry();
      n := faceNormal;
    }

    /** `toVanilla`: the four vertex records, word for word; the texture index and item flag are ignored. */
    method ToVanilla(textureIndex: int, target: array<Word>, targetIndex: nat, isItem: bool)
      requires Valid() && targetIndex + QUAD_STRIDE <= target.Length
      modifies target
      ensures target[..] == Splice(old(target[..]), targetIndex, old(Words())[VERTEX_X..])
      ensures |old(Words())[VERTEX_X..]| == QUAD_STRIDE
    {
      ArrayCopy(data[baseIndex + VERTEX_X..baseIndex + VERTEX_X + QUAD_STRIDE], target, targetIndex);
    }

    /**
     * `copyTo` as written: derives first, then copies words 1 onwards, the
     * face normal and the nominal face, and marks the target derived.
     */
    method CopyTo(target: QuadView)
      requires Valid() && target.Valid() && target != this && target.data != data
      modifies this`isGeometryInvalid, this`faceNormal, data
      modifies target`faceNormal, target`nominalFace, target`isGeometryInvalid, target.data
      ensures !isGeometryInvalid && !target.isGeometryInvalid
      ensures faceNormal == (if old(isGeometryInvalid) then fmt.faceNormalOf(old(Words())) else old(faceNormal))
      ensures target.faceNormal == faceNormal && target.nominalFace == old(nominalFace)
      ensures Words() == Geometry(fmt, old(isGeometryInvalid), old(Words()))
      ensures data[..] == old(data[..])[baseIndex + HEADER_BITS := Geometry(fmt, old(isGeometryInvalid), old(Words()))[HEADER_BITS]]
      ensures target.Words() == CopiedWindow(Geometry(fmt, old(isGeometryInvalid), old(Words())), old(target.Words()))
      ensures target.data[..] == Splice(old(target.data[..]), target.baseIndex + 1, Geometry(fmt, old(isGeometryInvalid), old(Words()))[1..])
    {
      ComputeGeometry();
      CopyDerivedTo(target);
    }

    /** The part of `copyTo` after derivation: words 1 onwards, the face normal and the nominal face; the target marked derived. */
    method CopyDerivedTo(target: QuadView)
      requires Valid() && target.Valid() && target != this && target.data != data
      modifies target`faceNormal, target`nominalFace, target`isGeometryInvalid, target.data
      ensures !target.isGeometryInvalid && target.faceNormal == faceNormal && target.nominalFace == nominalFace
      ensures target.Words() == CopiedWindow(Words(), old(target.Words()))
      ensures target.data[..] == Splice(old(target.data[..]), target.baseIndex + 1, Words()[1..])
    {
      ghost var t := target.data[..];
      assert target.Words() == t[target.baseIndex..target.baseIndex + TOTAL_STRIDE];
      var src := data[baseIndex + 1..baseIndex + TOTAL_STRIDE];
      assert src == Words()[1..];
      ArrayCopy(src, target.data, target.baseIndex + 1);
      SpliceAfterHeader(t, target.baseIndex, Words());
      assert target.Words() == Splice(t, target.baseIndex + 1, Words()[1..])[target.baseIndex..target.baseIndex + TOTAL_STRIDE];
      target.faceNormal := faceNormal;
      target.nominalFace := nominalFace;
      target.isGeometryInvalid := false;
    }

    /** The corrected copy: the whole quad, then the target's own material written back into the header. */
    method CopyToFixed(target: QuadView)
      requires Valid() && target.Valid() && target != this && target.fmt == fmt && target.data != data
      modifies this`isGeometryInvalid, this`faceNormal, data
      modifies target`faceNormal, target`nominalFace, target`isGeometryInvalid, target.data
      ensures !isGeometryInvalid && !target.isGeometryInvalid
      ensures faceNormal == (if old(isGeometryInvalid) then fmt.faceNormalOf(old(Words())) else old(faceNormal))
      ensures target.faceNormal == faceNormal && target.nominalFace == old(nominalFace)
      ensures Words() == Geometry(fmt, old(isGeometryInvalid), old(Words()))
      ensures data[..] == old(data[..])[baseIndex + HEADER_BITS := Geometry(fmt, old(isGeometryInvalid), old(Words()))[HEADER_BITS]]
      ensures target.Words() == FixedCopiedWindow(fmt, Geometry(fmt, old(isGeometryInvalid), old(Words())), old(target.Words()))
      ensures target.data[..] == Splice(old(target.data[..]), target.baseIndex, target.Words())
    {
      ComputeGeometry();
      CopyFixedDerivedTo(target);
    }

    /** The part of the corrected copy after derivation. */
    method CopyFixedDerivedTo(target: QuadView)
      requires Valid() && target.Valid() && target != this && target.fmt == fmt && target.data != data
      modifies target`faceNormal, target`nominalFace, target`isGeometryInvalid, target.data
      ensures !target.isGeometryInvalid && target.faceNormal == faceNormal && target.nominalFace == nominalFace
      ensures target.Words() == FixedCopiedWindow(fmt, Words(), old(target.Words()))
      ensures target.data[..] == Splice(old(target.data[..]), target.baseIndex, target.Words())
    {
      var material := target.Material();
      ghost var t := target.data[..];
      ghost var fixed := FixedCopiedWindow(fmt, Words(), target.Words());
      ArrayCopy(data[baseIndex..baseIndex + TOTAL_STRIDE], target.data, target.baseIndex);
      target.data[target.baseIndex + HEADER_BITS] := fmt.withMaterial(target.data[target.baseIndex + HEADER_BITS], material);
      SpliceHeader(t, target.baseIndex, Words(), fixed[HEADER_BITS]);
      assert target.data[..] == Splice(t, target.baseIndex, fixed);
      target.faceNormal := faceNormal;
      target.nominalFace := nominalFace;
      target.isGeometryInvalid := false;
    }

    /** `material()`: decoded from the header word, with no derivation. */
    function Material(): (m: Material)
      reads this, data
      requires Valid()
      ensures m == fmt.material(Words()[HEADER_BITS])
    {
      fmt.material(data[baseIndex + HEADER_BITS])
    }

    /** `colorIndex()`: the second header word. */
    function ColorIndex(): (c: Word)
      reads this, data
      requires Valid()
      ensures c == Words()[HEADER_COLOR_INDEX]
    {
      data[baseIndex + HEADER_COLOR_INDEX]
    }

    /** `tag()`: the third header word. */
    function Tag(): (t: Word)
      reads this, data
      requires Valid()
      ensures t == Words()[HEADER_TAG]
    {
      data[baseIndex + HEADER_TAG]
    }

    /** `cullFace()`: decoded from the header word, with no derivation. */
    function CullFace(): (f: Option<Face>)
      reads this, data
      requires Valid()
      ensures f == fmt.cullFace(Words()[HEADER_BITS])
    {
      fmt.cullFace(data[baseIndex + HEADER_BITS])
    }

    /** `nominalFace()`: the face fixed at load time, never re-derived. */
    function NominalFace(): (f: Option<Face>)
      reads this
      ensures f == nominalFace
    {
      nominalFace
    }

    /** `normalFlags()`: which vertices carry an explicit normal. */
    function NormalFlags(): (flags: Word)
      reads this, data
      requires Valid()
      ensures flags == fmt.normalFlags(Words()[HEADER_BITS])
    {
      fmt.normalFlags(data[baseIndex + HEADER_BITS])
    }

    /** `hasVertexNormals()`: with a four-bit normal mask, true exactly when some vertex has a normal. */
    function HasVertexNormals(): (r: bool)
      reads this, data
      requires Valid()
      ensures r <==> NormalFlags() != 0
      ensures Lawful(fmt) ==> (r <==> exists v :: 0 <= v < 4 && HasNormal(v))
    {
      var flags := fmt.normalFlags(data[baseIndex + HEADER_BITS]);
      assert Lawful(fmt) ==> (flags != 0 <==> exists v :: 0 <= v < 4 && HasNormal(v)) by {
        if Lawful(fmt) {
          NormalFlagsFourBits(fmt, data[baseIndex + HEADER_BITS]);
          AnyNormalBit(flags);
          if flags != 0 {
            var v :| 0 <= v < 4 && NormalBit(flags, v);
            assert HasNormal(v);
          }
        }
      }
      flags != 0
    }

    /** `hasNormal(v)`: the flag of vertex `v` in the normal flags. */
    function HasNormal(v: nat): (r: bool)
      reads this, data
      requires Valid() && v < 4
      ensures r <==> NormalFlags() & ((1 as Word) << v) != 0
      ensures r ==> NormalFlags() != 0
    {
      NormalBit(NormalFlags(), v)
    }

    /** `copyNormal(v)`: the unpacked normal of vertex `v`, or `None` (Java's `null`) when it has none. */
    function CopyNormal(v: nat): (n: Option<Vec3>)
      reads this, data
      requires Valid() && v < 4
      ensures n.None? <==> !HasNormal(v)
      ensures n.Some? ==> n.value == fmt.unpackNormal(Words()[VertexWord(v, VERTEX_NORMAL)])
    {
      if HasNormal(v) then Some(fmt.unpackNormal(data[baseIndex + v * VERTEX_STRIDE + VERTEX_NORMAL])) else None
    }

    /** `normalX(v)`: `None` stands for the NaN returned when vertex `v` has no normal. */
    function NormalX(v: nat): (x: Option<Word>)
      reads this, data
      requires Valid() && v < 4
      ensures x.None? <==> !HasNormal(v)
      ensures x.Some? ==> x.value == CopyNormal(v).value.x
    {
      if HasNormal(v) then Some(fmt.unpackNormal(data[baseIndex + v * VERTEX_STRIDE + VERTEX_NORMAL]).x) else None
    }

    /** `normalY(v)`. */
    function NormalY(v: nat): (y: Option<Word>)
      reads this, data
      requires Valid() && v < 4
      ensures y.None? <==> !HasNormal(v)
      ensures y.Some? ==> y.value == CopyNormal(v).value.y
    {
      if HasNormal(v) then Some(fmt.unpackNormal(data[baseIndex + v * VERTEX_STRIDE + VERTEX_NORMAL]).y) else None
    }

    /** `normalZ(v)`. */
    function NormalZ(v: nat): (z: Option<Word>)
      reads this, data
      requires Valid() && v < 4
      ensures z.None? <==> !HasNormal(v)
      ensures z.Some? ==> z.value == CopyNormal(v).value.z
    {
      if HasNormal(v) then Some(fmt.unpackNormal(data[baseIndex + v * VERTEX_STRIDE + VERTEX_NORMAL]).z) else None
    }

    /** `posByIndex(v, c)`: coordinate `c` of vertex `v`, as its float bit pattern. */
    function PosByIndex(v: nat, c: nat): (p: Word)
      reads this, data
      requires Valid() && v < 4 && c < 3
      ensures p == Words()[VertexWord(v, VERTEX_X + c)]
    {
      data[baseIndex + v * VERTEX_STRIDE + VERTEX_X + c]
    }

    /** `x(v)`. */
    function X(v: nat): (x: Word)
      reads this, data
      requires Valid() && v < 4
      ensures x == PosByIndex(v, 0)
    {
      data[baseIndex + v * VERTEX_STRIDE + VERTEX_X]
    }

    /** `y(v)`. */
    function Y(v: nat): (y: Word)
      reads this, data
      requires Valid() && v < 4
      ensures y == PosByIndex(v, 1)
    {
      data[baseIndex + v * VERTEX_STRIDE + VERTEX_Y]
    }

    /** `z(v)`. */
    function Z(v: nat): (z: Word)
      reads this, data
      requires Valid() && v < 4
      ensures z == PosByIndex(v, 2)
    {
      data[baseIndex + v * VERTEX_STRIDE + VERTEX_Z]
    }

    /** `copyPos(v, target)`: the three coordinates of vertex `v`. */
    function CopyPos(v: nat): (p: Vec3)
      reads this, data
      requires Valid() && v < 4
      ensures p == Vec3(PosByIndex(v, 0), PosByIndex(v, 1), PosByIndex(v, 2))
    {
      var index := baseIndex + v * VERTEX_STRIDE + VERTEX_X;
      Vec3(data[index], data[index + 1], data[index + 2])
    }

    /** `lightmap(v)`. */
    function Lightmap(v: nat): (l: Word)
      reads this, data
      requires Valid() && v < 4
      ensures l == Words()[VertexWord(v, VERTEX_LIGHTMAP)]
    {
      data[baseIndex + v * VERTEX_STRIDE + VERTEX_LIGHTMAP]
    }

    /** `spriteColor(v, spriteIndex)`: only sprite 0 exists; any other index is an illegal argument. */
    function SpriteColor(v: nat, spriteIndex: int): (r: Result<Word, Failure>)
      reads this, data
      requires Valid() && v < 4
      ensures r.Err? <==> spriteIndex != 0
      ensures r.Err? ==> r.error == UnsupportedSpriteIndex(spriteIndex)
      ensures r.Ok? ==> r.value == Words()[VertexWord(v, VERTEX_COLOR)]
    {
      if spriteIndex != 0 then Err(UnsupportedSpriteIndex(spriteIndex))
      else Ok(data[baseIndex + v * VERTEX_STRIDE + VERTEX_COLOR])
    }

    /** `spriteU(v, spriteIndex)`, as the float's bit pattern. */
    function SpriteU(v: nat, spriteIndex: int): (r: Result<Word, Failure>)
      reads this, data
      requires Valid() && v < 4
      ensures r.Err? <==> spriteIndex != 0
      ensures r.Err? ==> r.error == UnsupportedSpriteIndex(spriteIndex)
      ensures r.Ok? ==> r.value == Words()[VertexWord(v, VERTEX_U)]
    {
      if spriteIndex != 0 then Err(UnsupportedSpriteIndex(spriteIndex))
      else Ok(data[baseIndex + v * VERTEX_STRIDE + VERTEX_U])
    }

    /** `spriteV(v, spriteIndex)`, as the float's bit pattern. */
    function SpriteV(v: nat, spriteIndex: int): (r: Result<Word, Failure>)
      reads this, data
      requires Valid() && v < 4
      ensures r.Err? <==> spriteIndex != 0
      ensures r.Err? ==> r.error == UnsupportedSpriteIndex(spriteIndex)
      ensures r.Ok? ==> r.value == Words()[VertexWord(v, VERTEX_V)]
    {
      if spriteIndex != 0 then Err(UnsupportedSpriteIndex(spriteIndex))
      else Ok(data[baseIndex + v * VERTEX_STRIDE + VERTEX_V])
    }

    /** `vertexStart()`: the array index where vertex 0's record begins. */
    function VertexStart(): (start: nat)
      reads this
      ensures forall v: nat, offset: nat :: v < 4 && IsVertexOffset(offset) ==>
                start + v * VERTEX_STRIDE + (offset - HEADER_STRIDE) == baseIndex + VertexWord(v, offset)
    {
      baseIndex + HEADER_STRIDE
    }

    /** `hasShade()`: the shade flag, unless the material disables diffuse shading. */
    function HasShade(): (r: bool)
      reads this, data
      requires Valid()
      ensures r <==> shade && !Material().disableDiffuse
    {
      shade && !fmt.material(data[baseIndex + HEADER_BITS]).disableDiffuse
    }

    /** `shade(boolean)`. */
    method SetShade(shade: bool)
      modifies this`shade
      ensures this.shade == shade
    {
      this.shade := shade;
    }
  }
}
