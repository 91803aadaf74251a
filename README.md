# Indium quad view and item render context, in Dafny

This project models three parts of Indium, a Fabric rendering-API implementation for Minecraft.

- **`QuadViewImpl`** (`quad_view.dfy`, module `QuadViews`). A view of one encoded quad: 35 `int` words inside an array, starting at `baseIndex`. Word 0 is the header word. It packs the material, the cull face, the light face, the normal flags and the geometry flags. Words 1 and 2 hold the colour index and the tag. Four vertex records of eight words follow. The light face, the geometry flags and the face normal are derived lazily: `computeGeometry` rewrites the header word only when `isGeometryInvalid` is set, and then clears the flag. The class `QuadView` keeps the fields the source updates in place (`data`, `baseIndex`, `isGeometryInvalid`, `nominalFace`, `faceNormal`, `shade`). Its methods state the new array contents as a function of the old ones.
- **`ItemRenderContext`** (`item_render_context.dfy`, module `ItemRendering`). The per-quad pipeline for items:
  - the transform check;
  - the tint and lightmap rewrite of the four vertices;
  - the blend-mode-to-sink cache;
  - the three ways quads arrive: direct emission through the editor quad, mesh replay, and the vanilla fallback.

  What reaches a vertex consumer is recorded in the ghost log `buffered`. Every entry into `renderQuad` is recorded in `rendered`. Calls to `selectVertexConsumer` go to `selected`, and calls to the vanilla handler go to `vanillaCalls`. Each method states these logs and the sink cache as pure functions of its inputs and the old state:
  - the entries: `Replay`, `VanillaCalls`, `FallbackCalls`;
  - what is buffered: `Output`, `Outputs`;
  - the cached blend mode: `CacheStep`, `CacheAfter`;
  - the selections: `SelectionStep`, `Selections`.

  `FallbackConsumer` states `vanillaCalls` directly. Lemmas state what the functions mean.
- **The property parsers of `Indium`** (`indium.dfy`, module `Indium`). `asTriState`, `asBoolean` and `asEnum` are pure functions over `Option<string>`, where `None` is a property that is absent.

Supporting modules:

- `encoding_format.dfy` (`EncodingFormat`) holds the word layout, with the constants of the standard encoding. It also holds the helpers the view calls but whose code is not part of this model: the header-field packers and unpackers, `NormalHelper`, `GeometryHelper`, and the `clear`/`fromVanilla` writes of `MutableQuadViewImpl`. These helpers are the fields of a `Format` value. `Lawful(f)` states what the view assumes of the header packing. The material, light-face and geometry-flag writers store their value; the geometry flags are masked to three bits. Each writer keeps the other header fields (material, cull face, light face, normal flags, geometry flags). The normal flags are a four-bit mask. A literal sample packing (`QuadViews.SampleFormat`) satisfies `Lawful`, so these assumptions can all hold together.
- `wrappers.dfy` (`Wrappers`) holds `Option` and `Result`.

Java `int` values are `bv32` words, so -1 is `0xFFFF_FFFF`. Floats are kept as their raw bit patterns. Host collaborators are the fields of a `Host` value, so every property holds for every host. The host belongs to the item being rendered: `BeginRenderModel` installs a new one for each `renderModel` call. Its fields are:

- the transform predicate;
- the item colour palette;
- `ColorHelper`;
- `selectVertexConsumer`.

Two behaviours of the code are easy to miss:

- **`load()`.** It clears `isGeometryInvalid` before calling `lightFace()` (`QuadViewImpl.java:62-63`). So nothing is derived, and the nominal face is the light face already encoded (`QuadViews.QuadView.Load`).
- **`indexColor()`.** It is -1, meaning "no tint", for a white palette colour as well as for colour index -1 (`ItemRenderContext.java:162`). That is because OR-ing the opaque alpha byte into white gives -1 (`ItemRendering.IndexColorNoTint`).

## Model

Source paths are relative to the repository root.

| member | source | states |
|---|---|---|
| EncodingFormat.FaceFromIndex | src/main/java/link/infra/indium/renderer/render/ItemRenderContext.java:221-223 | face ids 0 to 5 name the face with that id, and id 6 (`NULL_FACE_ID`) and only that id names no face |
| EncodingFormat.FaceIndexRoundTrip | src/main/java/link/infra/indium/renderer/render/ItemRenderContext.java:221-223 | every face has an id below `NULL_FACE_ID` that maps back to it, so the fallback loop over ids 0 to 6 covers every face and the null face |
| EncodingFormat.WithLightFaceLaw | src/main/java/link/infra/indium/renderer/mesh/QuadViewImpl.java:96 | assumed of `EncodingFormat`'s header packing, which this model does not include: writing the light face stores it and keeps the material, cull face, normal flags and geometry flags |
| EncodingFormat.WithGeometryFlagsLaw | src/main/java/link/infra/indium/renderer/mesh/QuadViewImpl.java:99 | assumed of `EncodingFormat`'s header packing, which this model does not include: writing the geometry flags stores them, masked to three bits, and keeps the material, cull face, light face and normal flags |
| EncodingFormat.WithMaterialLaw | src/main/java/link/infra/indium/renderer/mesh/QuadViewImpl.java:150 | assumed of `EncodingFormat`'s header packing, which this model does not include: writing the material stores it and keeps every other header field, which is what "copy everything except the material" needs |
| EncodingFormat.NormalFlagsFourBits | src/main/java/link/infra/indium/renderer/mesh/QuadViewImpl.java:74-81 | assumed of `EncodingFormat`'s header packing, which this model does not include: the normal flags are a four-bit mask, one bit per vertex |
| EncodingFormat.VertexWord | src/main/java/link/infra/indium/renderer/mesh/QuadViewImpl.java:193-195 | the word of attribute `offset` of vertex `v` lies after the header and inside the quad, at `v * VERTEX_STRIDE` past the first vertex word |
| EncodingFormat.VertexWordInjective | src/main/java/link/infra/indium/renderer/mesh/QuadViewImpl.java:227-237 | distinct (vertex, attribute) pairs address distinct words, so vertex records never overlap |
| EncodingFormat.Splice | src/main/java/link/infra/indium/renderer/mesh/QuadViewImpl.java:105 | the array after an array copy: the copied words in their range, every other word kept |
| EncodingFormat.ArrayCopy | src/main/java/link/infra/indium/renderer/render/ItemRenderContext.java:153 | `System.arraycopy` leaves the target equal to `Splice` of its old contents |
| QuadViews.Geometry | src/main/java/link/infra/indium/renderer/mesh/QuadViewImpl.java:89-100 | derivation changes only the header word; with the flag clear it changes nothing; with the flag set the header becomes the derived header |
| QuadViews.DerivedHeader | src/main/java/link/infra/indium/renderer/mesh/QuadViewImpl.java:93-99 | the header word derivation writes: the light face from the face normal first, then the shape flags of the quad carrying it; its fields are stated by `DerivedHeaderFields` |
| QuadViews.DerivedHeaderFields | src/main/java/link/infra/indium/renderer/mesh/QuadViewImpl.java:93-99 | the derived header holds the light face computed from the face normal, and the shape flags computed from the quad already carrying that light face, masked to three bits; it keeps the material, cull face and normal flags |
| QuadViews.VertexBit | src/main/java/link/infra/indium/renderer/mesh/QuadViewImpl.java:190 | the mask of vertex `v` is `1 << v` |
| QuadViews.NormalBit | src/main/java/link/infra/indium/renderer/mesh/QuadViewImpl.java:190 | whether vertex `v`'s bit is set in a normal mask; `AnyNormalBit` ties it to a non-zero mask |
| QuadViews.AnyNormalBit | src/main/java/link/infra/indium/renderer/mesh/QuadViewImpl.java:78-81 | a four-bit mask is non-zero exactly when some vertex 0 to 3 has its bit set |
| QuadViews.CopiedWindow | src/main/java/link/infra/indium/renderer/mesh/QuadViewImpl.java:150-151 | after the copy as written, the target keeps its header word and takes each of the source's words 1 to 34 |
| QuadViews.FixedCopiedWindow | src/main/java/link/infra/indium/renderer/mesh/QuadViewImpl.java:150-151 | after the corrected copy, the target takes each of the source's words 1 to 34 |
| QuadViews.CopiedWindowKeepsTargetHeader | src/main/java/link/infra/indium/renderer/mesh/QuadViewImpl.java:150-151 | as written, the target keeps its own material, cull face, light face, normal flags and geometry flags |
| QuadViews.SampleFormatLawful | src/main/java/link/infra/indium/renderer/mesh/QuadViewImpl.java:150 | the literal sample packing obeys every packing law, so the laws are consistent |
| QuadViews.CopyToLosesCullFace | src/main/java/link/infra/indium/renderer/mesh/QuadViewImpl.java:151 | in the lawful sample packing, a source quad culled on `Up` is copied onto a cleared quad, which has no cull face; as written the target still has none, and with the correction it has `Up` |
| QuadViews.FixedCopyKeepsOnlyMaterial | src/main/java/link/infra/indium/renderer/mesh/QuadViewImpl.java:150 | the corrected copy keeps the target's material and takes the source's cull face, light face, normal flags and geometry flags |
| QuadViews.QuadView.Maker | src/main/java/link/infra/indium/renderer/render/ItemRenderContext.java:129-133 | the editor quad is attached to the context's buffer at index 0 and cleared, with its geometry marked invalid |
| QuadViews.QuadView.Clear | src/main/java/link/infra/indium/renderer/render/ItemRenderContext.java:251 | the quad becomes the cleared encoding and nothing else in the array changes; its geometry is invalid, it has no nominal face and it is shaded |
| QuadViews.QuadView.FromVanilla | src/main/java/link/infra/indium/renderer/render/ItemRenderContext.java:239 | the quad becomes the vanilla quad's encoding with the given cull face, and nothing else in the array changes; the nominal face is the vanilla quad's face, the shade flag is the quad's, and the geometry is invalid |
| QuadViews.QuadView.LoadAt | src/main/java/link/infra/indium/renderer/mesh/QuadViewImpl.java:51-55 | binds exactly the array and base index, then leaves the view loaded; the array is not written |
| QuadViews.QuadView.Load | src/main/java/link/infra/indium/renderer/mesh/QuadViewImpl.java:61-67 | the flag ends clear, the nominal face is the light face already encoded (no derivation runs), the face normal is recomputed, and the array is not written |
| QuadViews.QuadView.ComputeGeometry | src/main/java/link/infra/indium/renderer/mesh/QuadViewImpl.java:89-100 | the flag ends clear; only the header word may change, to the derived header when the flag was set; with the flag clear nothing changes, so a second call is a no-op |
| QuadViews.QuadView.LightFace | src/main/java/link/infra/indium/renderer/mesh/QuadViewImpl.java:123-127 | derives first and returns with the flag clear; yields the stored light face when the flag was clear, and, under the packing laws, the light face computed from the face normal when it was set |
| QuadViews.QuadView.GeometryFlags | src/main/java/link/infra/indium/renderer/mesh/QuadViewImpl.java:84-87 | derives first and returns with the flag clear; yields the stored flags when the flag was clear, and, under the packing laws, the shape flags of the quad carrying its new light face, masked to three bits, when it was set |
| QuadViews.QuadView.FaceNormal | src/main/java/link/infra/indium/renderer/mesh/QuadViewImpl.java:139-143 | derives first, returns with the flag clear, and yields the normal of the quad as it was when the flag was set, else the cached one |
| QuadViews.QuadView.ToVanilla | src/main/java/link/infra/indium/renderer/mesh/QuadViewImpl.java:103-106 | the target gets the 32 vertex words from `VERTEX_X` on at `targetIndex` and keeps every other word; the texture index and item flag play no part |
| QuadViews.QuadView.CopyTo | src/main/java/link/infra/indium/renderer/mesh/QuadViewImpl.java:145-155 | derives the source first; the target takes words 1 to 34, the face normal and the nominal face, and its flag is cleared; its header word and the rest of its array are untouched; in the source's array only the source's header word changes, to the derived one |
| QuadViews.QuadView.CopyDerivedTo | src/main/java/link/infra/indium/renderer/mesh/QuadViewImpl.java:149-154 | the copying half of `copyTo`: the target's words and cached state as `CopiedWindow` gives them |
| QuadViews.QuadView.CopyToFixed | src/main/java/link/infra/indium/renderer/mesh/QuadViewImpl.java:145-155 | the corrected copy: the target's words become `FixedCopiedWindow` of the derived source, and the rest of its array is untouched; in the source's array only the source's header word changes, to the derived one |
| QuadViews.QuadView.CopyFixedDerivedTo | src/main/java/link/infra/indium/renderer/mesh/QuadViewImpl.java:149-154 | the copying half of the corrected copy: the whole quad, then the target's own material put back |
| QuadViews.QuadView.Material | src/main/java/link/infra/indium/renderer/mesh/QuadViewImpl.java:108-111 | the material decoded from the header word, with no derivation |
| QuadViews.QuadView.ColorIndex | src/main/java/link/infra/indium/renderer/mesh/QuadViewImpl.java:113-116 | the quad's word `HEADER_COLOR_INDEX` |
| QuadViews.QuadView.Tag | src/main/java/link/infra/indium/renderer/mesh/QuadViewImpl.java:118-121 | the quad's word `HEADER_TAG` |
| QuadViews.QuadView.CullFace | src/main/java/link/infra/indium/renderer/mesh/QuadViewImpl.java:129-132 | the cull face decoded from the header word, with no derivation |
| QuadViews.QuadView.NominalFace | src/main/java/link/infra/indium/renderer/mesh/QuadViewImpl.java:134-137 | the stored nominal face |
| QuadViews.QuadView.NormalFlags | src/main/java/link/infra/indium/renderer/mesh/QuadViewImpl.java:74-76 | the normal flags decoded from the header word |
| QuadViews.QuadView.HasVertexNormals | src/main/java/link/infra/indium/renderer/mesh/QuadViewImpl.java:78-81 | true exactly when the normal flags are non-zero, and, for a lawful format, exactly when some vertex has a normal |
| QuadViews.QuadView.HasNormal | src/main/java/link/infra/indium/renderer/mesh/QuadViewImpl.java:188-191 | true exactly when bit `v` of the normal flags is set, and then some vertex has a normal |
| QuadViews.QuadView.CopyNormal | src/main/java/link/infra/indium/renderer/mesh/QuadViewImpl.java:197-210 | `None` (Java's `null`) exactly when vertex `v` has no normal, else the unpacked normal word of that vertex |
| QuadViews.QuadView.NormalX | src/main/java/link/infra/indium/renderer/mesh/QuadViewImpl.java:212-215 | `None` (the NaN) exactly when vertex `v` has no normal, else the x component of its normal |
| QuadViews.QuadView.NormalY | src/main/java/link/infra/indium/renderer/mesh/QuadViewImpl.java:217-220 | `None` exactly when vertex `v` has no normal, else the y component |
| QuadViews.QuadView.NormalZ | src/main/java/link/infra/indium/renderer/mesh/QuadViewImpl.java:222-225 | `None` exactly when vertex `v` has no normal, else the z component |
| QuadViews.QuadView.PosByIndex | src/main/java/link/infra/indium/renderer/mesh/QuadViewImpl.java:168-171 | coordinate `c` of vertex `v` is the word at the vertex's `VERTEX_X + c` |
| QuadViews.QuadView.X | src/main/java/link/infra/indium/renderer/mesh/QuadViewImpl.java:173-176 | the same as coordinate 0 |
| QuadViews.QuadView.Y | src/main/java/link/infra/indium/renderer/mesh/QuadViewImpl.java:178-181 | the same as coordinate 1 |
| QuadViews.QuadView.Z | src/main/java/link/infra/indium/renderer/mesh/QuadViewImpl.java:183-186 | the same as coordinate 2 |
| QuadViews.QuadView.CopyPos | src/main/java/link/infra/indium/renderer/mesh/QuadViewImpl.java:157-166 | the three coordinates of vertex `v`, in order |
| QuadViews.QuadView.Lightmap | src/main/java/link/infra/indium/renderer/mesh/QuadViewImpl.java:227-230 | the vertex's lightmap word |
| QuadViews.QuadView.SpriteColor | src/main/java/link/infra/indium/renderer/mesh/QuadViewImpl.java:232-237 | an illegal-argument failure exactly when the sprite index is not 0, else the vertex's colour word |
| QuadViews.QuadView.SpriteU | src/main/java/link/infra/indium/renderer/mesh/QuadViewImpl.java:239-244 | a failure exactly when the sprite index is not 0, else the vertex's U word |
| QuadViews.QuadView.SpriteV | src/main/java/link/infra/indium/renderer/mesh/QuadViewImpl.java:246-251 | a failure exactly when the sprite index is not 0, else the vertex's V word |
| QuadViews.QuadView.VertexStart | src/main/java/link/infra/indium/renderer/mesh/QuadViewImpl.java:253-255 | every vertex attribute lies at the vertex start plus `v * VERTEX_STRIDE` plus the attribute's place in the record |
| QuadViews.QuadView.HasShade | src/main/java/link/infra/indium/renderer/mesh/QuadViewImpl.java:257-259 | true exactly when the shade flag is set and the material does not disable diffuse shading |
| QuadViews.QuadView.SetShade | src/main/java/link/infra/indium/renderer/mesh/QuadViewImpl.java:261-263 | stores the shade flag and nothing else |
| Indium.ToLowerCase | src/main/java/link/infra/indium/Indium.java:83 | the same length, each character folded |
| Indium.EqualsIgnoreCase | src/main/java/link/infra/indium/Indium.java:69 | two strings are equal ignoring case exactly when their lower-cased forms are equal |
| Indium.LowerCaseMatches | src/main/java/link/infra/indium/Indium.java:83-87 | comparing the lower-cased property with a lower-case literal is comparing ignoring case, in both directions |
| Indium.AsTriState | src/main/java/link/infra/indium/Indium.java:79-93 | `True` exactly for "true" in any case, `False` exactly for "false" in any case, `Default` otherwise, absent and empty included |
| Indium.AutoIsDefault | src/main/java/link/infra/indium/Indium.java:88-90 | "auto", the value written for every unset property, gives `Default` |
| Indium.AsBoolean | src/main/java/link/infra/indium/Indium.java:52-61 | true for "true", false for "false" (any case), the default otherwise |
| Indium.AutoBooleanIsDefault | src/main/java/link/infra/indium/Indium.java:107-112 | every boolean flag left at "auto" takes its default |
| Indium.FirstNamed | src/main/java/link/infra/indium/Indium.java:68-73 | the position of the first constant whose name matches ignoring case, with no earlier match; `None` exactly when none matches |
| Indium.AsEnum | src/main/java/link/infra/indium/Indium.java:64-77 | the default for an absent or empty property; else the first matching constant in declaration order, or the default when none matches; always the default or one of the constants |
| ItemRendering.Accepts | src/main/java/link/infra/indium/renderer/render/ItemRenderContext.java:168 | every quad passes when no transform is in effect; otherwise the transform decides |
| ItemRendering.ModeOf | src/main/java/link/infra/indium/renderer/render/ItemRenderContext.java:172-183 | the blend mode of the material encoded in the quad's header word |
| ItemRendering.LayerOf | src/main/java/link/infra/indium/renderer/render/ItemRenderContext.java:203-206 | the translucent-cull entity layer exactly for a translucent mode, else the cutout entity layer |
| ItemRendering.Collapse | src/main/java/link/infra/indium/renderer/render/ItemRenderContext.java:196-198 | a non-default mode becomes translucent or cutout, and translucent exactly when it was translucent |
| ItemRendering.QuadLightmap | src/main/java/link/infra/indium/renderer/render/ItemRenderContext.java:174 | full brightness for an emissive material, else the context's lightmap |
| ItemRendering.SinkFor | src/main/java/link/infra/indium/renderer/render/ItemRenderContext.java:191-211 | the sink a blend mode belongs in: the model sink for `Default`, else the sink selected for the layer of the collapsed mode |
| ItemRendering.IndexColor | src/main/java/link/infra/indium/renderer/render/ItemRenderContext.java:160-163 | -1 for colour index -1; for a real colour index, the palette colour's RGB with an opaque alpha byte |
| ItemRendering.IndexColorNoTint | src/main/java/link/infra/indium/renderer/render/ItemRenderContext.java:160-163 | the tint is -1 exactly for colour index -1 or a white palette colour |
| ItemRendering.QuadColor | src/main/java/link/infra/indium/renderer/render/ItemRenderContext.java:173 | no tint (-1) exactly when the material disables the colour index, the colour index is -1 or the palette colour is white; otherwise the palette colour made opaque |
| ItemRendering.TintVertex | src/main/java/link/infra/indium/renderer/render/ItemRenderContext.java:177-180 | one pass rewrites vertex `i`'s colour and lightmap from their old values and keeps every other word |
| ItemRendering.TintVerticesKeep | src/main/java/link/infra/indium/renderer/render/ItemRenderContext.java:176-181 | after `n` passes, every word no pass rewrote is unchanged |
| ItemRendering.TintVerticesRewrite | src/main/java/link/infra/indium/renderer/render/ItemRenderContext.java:176-181 | after `n` passes, each vertex below `n` has its colour and lightmap rewritten from its original words |
| ItemRendering.TintVertices | src/main/java/link/infra/indium/renderer/render/ItemRenderContext.java:176-181 | the first `n` passes of the tint loop; `TintVerticesAt` states what they write |
| ItemRendering.TintVerticesAt | src/main/java/link/infra/indium/renderer/render/ItemRenderContext.java:176-181 | after `n` passes, vertices below `n` are rewritten from their original words and every other word is unchanged |
| ItemRendering.Tinted | src/main/java/link/infra/indium/renderer/render/ItemRenderContext.java:172-181 | every vertex colour becomes the channel-corrected product of the tint and its colour, every lightmap the brighter of itself and the floor, and no other word changes |
| ItemRendering.Shaded | src/main/java/link/infra/indium/renderer/render/ItemRenderContext.java:172-181 | the words `renderQuad` buffers for an accepted quad: `Tinted` with the quad's colour and lightmap; the header words, and so the material, are kept |
| ItemRendering.Output | src/main/java/link/infra/indium/renderer/render/ItemRenderContext.java:165-184 | one entry into `renderQuad` buffers at most one quad, and one exactly when no transform is in effect or the transform accepts the quad; that quad is the `Shaded` words in `SinkFor` the quad's blend mode |
| ItemRendering.Outputs | src/main/java/link/infra/indium/renderer/render/ItemRenderContext.java:165-184 | what a run of entries buffers, in order: at most one quad per entry |
| ItemRendering.OutputsSnoc | src/main/java/link/infra/indium/renderer/render/ItemRenderContext.java:165-184 | one more entry buffers what it alone would, after the rest |
| ItemRendering.OutputsAppend | src/main/java/link/infra/indium/renderer/render/ItemRenderContext.java:165-184 | two runs of entries buffer what each would alone, in order |
| ItemRendering.CacheStep | src/main/java/link/infra/indium/renderer/render/ItemRenderContext.java:191-211 | after one entry the cache holds what it held or a collapsed mode (translucent or cutout) |
| ItemRendering.SelectionStep | src/main/java/link/infra/indium/renderer/render/ItemRenderContext.java:191-211 | one entry selects at most one sink, and one exactly when an accepted quad of a non-default mode misses the cache; the selection is for the layer of the collapsed mode |
| ItemRendering.CacheAfter | src/main/java/link/infra/indium/renderer/render/ItemRenderContext.java:191-211 | the cache after a run holds what it held or a collapsed mode |
| ItemRendering.Selections | src/main/java/link/infra/indium/renderer/render/ItemRenderContext.java:191-211 | the sinks a run selects, in order: at most one per entry |
| ItemRendering.CacheSnoc | src/main/java/link/infra/indium/renderer/render/ItemRenderContext.java:165-211 | one more entry moves the cache one step and appends its selection |
| ItemRendering.CacheAppend | src/main/java/link/infra/indium/renderer/render/ItemRenderContext.java:165-211 | two runs move the cache as the second does from where the first left it, and select what each selects in order |
| ItemRendering.OneModeSelectsOnce | src/main/java/link/infra/indium/renderer/render/ItemRenderContext.java:191-211 | when all accepted non-default quads of a run collapse to one mode, its sink is selected at most once, and not at all if it is already cached; the run selects nothing exactly when the cache is unchanged |
| ItemRendering.Replay | src/main/java/link/infra/indium/renderer/render/ItemRenderContext.java:146-158 | a mesh replays as one entry per stride |
| ItemRendering.ReplayAppend | src/main/java/link/infra/indium/renderer/render/ItemRenderContext.java:146-158 | replaying two meshes back to back is replaying each |
| ItemRendering.StrideStep | src/main/java/link/infra/indium/renderer/render/ItemRenderContext.java:152-155 | an aligned index short of the mesh end has a whole stride after it, and the next index is aligned |
| ItemRendering.ReplayStep | src/main/java/link/infra/indium/renderer/render/ItemRenderContext.java:152-156 | replay up to one more stride is replay so far, then that stride loaded |
| ItemRendering.ReplayAt | src/main/java/link/infra/indium/renderer/render/ItemRenderContext.java:146-158 | a mesh replays as `length / TOTAL_STRIDE` entries, and entry `k` is words `[k * 35, (k + 1) * 35)` of the mesh, freshly loaded |
| ItemRendering.VanillaCalls | src/main/java/link/infra/indium/renderer/render/ItemRenderContext.java:238-241 | the fallback renders each quad of the list once, in list order, converted with the list's cull face and left to derive |
| ItemRendering.VanillaCallsStep | src/main/java/link/infra/indium/renderer/render/ItemRenderContext.java:238-241 | converting one more quad of the list appends its entry |
| ItemRendering.FallbackCallsStep | src/main/java/link/infra/indium/renderer/render/ItemRenderContext.java:221-224 | rendering one more face id appends that face's entries |
| ItemRendering.FallbackCalls | src/main/java/link/infra/indium/renderer/render/ItemRenderContext.java:218-242 | the transformed fallback renders as many quads as the model has over the seven face ids; empty lists render nothing |
| ItemRendering.TintQuad | src/main/java/link/infra/indium/renderer/render/ItemRenderContext.java:176-181 | the loop leaves the buffer equal to `Tinted` of its old words |
| ItemRendering.ItemRenderContext.constructor | src/main/java/link/infra/indium/renderer/render/ItemRenderContext.java:84-89 | a fresh buffer with the editor quad at index 0 and cleared, an empty sink cache and empty logs |
| ItemRendering.ItemRenderContext.BeginRenderModel | src/main/java/link/infra/indium/renderer/render/ItemRenderContext.java:92-100 | the new item's host calls, lightmap and model sink are installed and the sink cache is emptied, which the cache invariant needs once the host changes |
| ItemRendering.ItemRenderContext.SelectVertexConsumer | src/main/java/link/infra/indium/renderer/render/ItemRenderContext.java:124-127 | the host's sink for the layer, with the selection recorded |
| ItemRendering.ItemRenderContext.QuadVertexConsumer | src/main/java/link/infra/indium/renderer/render/ItemRenderContext.java:191-211 | always the sink an uncached lookup gives; `Default` and a cache hit select nothing and change no cache field; a miss selects once and caches the collapsed mode |
| ItemRendering.ItemRenderContext.RenderQuad | src/main/java/link/infra/indium/renderer/render/ItemRenderContext.java:165-184 | records the entry; a rejected quad buffers nothing and leaves the words alone; an accepted one is tinted in place and buffered once, in its blend mode's sink; the cache moves as `CacheStep` says and the selections are `SelectionStep`'s |
| ItemRendering.ItemRenderContext.ShadeEditor | src/main/java/link/infra/indium/renderer/render/ItemRenderContext.java:172-181 | the editor's words become `Shaded` of the old words, and the material's blend mode is returned |
| ItemRendering.ItemRenderContext.BufferEditor | src/main/java/link/infra/indium/renderer/render/ItemRenderContext.java:183 | the words are buffered once in `SinkFor` the quad's blend mode, with the cache and selections as `CacheStep` and `SelectionStep` say |
| ItemRendering.ItemRenderContext.MeshConsumer | src/main/java/link/infra/indium/renderer/render/ItemRenderContext.java:146-158 | renders `Replay` of the mesh, in mesh order, with the cache and selections that run gives, and never writes the mesh |
| ItemRendering.ItemRenderContext.ReplayQuad | src/main/java/link/infra/indium/renderer/render/ItemRenderContext.java:153-156 | one stride copied into the editor, loaded and rendered: one entry with those words, left un-derived, and its output, cache step and selection |
| ItemRendering.ItemRenderContext.Emit | src/main/java/link/infra/indium/renderer/render/ItemRenderContext.java:135-141 | renders the derived editor quad, then leaves the editor cleared: cleared words, geometry invalid, no nominal face, shade on |
| ItemRendering.ItemRenderContext.GetEmitter | src/main/java/link/infra/indium/renderer/render/ItemRenderContext.java:249-253 | returns the editor quad, cleared: cleared words, geometry invalid, no nominal face, shade on |
| ItemRendering.ItemRenderContext.RenderVanilla | src/main/java/link/infra/indium/renderer/render/ItemRenderContext.java:239-240 | one vanilla quad converted into the editor and rendered, geometry left to derive |
| ItemRendering.ItemRenderContext.RenderFallbackWithTransform | src/main/java/link/infra/indium/renderer/render/ItemRenderContext.java:231-242 | renders `VanillaCalls` of the list, in list order, with the cache and selections that run gives; an empty list renders nothing |
| ItemRendering.ItemRenderContext.RenderFacesWithTransform | src/main/java/link/infra/indium/renderer/render/ItemRenderContext.java:221-225 | renders `FallbackCalls` over face ids 0 to `NULL_FACE_ID` inclusive, with the cache and selections that run gives |
| ItemRendering.ItemRenderContext.FallbackConsumer | src/main/java/link/infra/indium/renderer/render/ItemRenderContext.java:218-229 | without a transform, exactly one vanilla-handler call, nothing rendered, and the cache, the editor and its words untouched; with one, every model quad over the seven face ids through `renderQuad`, the cache and selections that run gives, and no vanilla-handler call |

## Left out

- Floating point. Positions, texture coordinates and normals are kept as their 32-bit patterns, and `NormalHelper`/`GeometryHelper` are uninterpreted fields of `Format`. The NaN returned by `normalX`/`normalY`/`normalZ` is `None`, and the target vectors of `copyNormal` and `copyPos` (QuadViewImpl.java:157-166), which Java fills or creates when null, are not modelled: each result is a value.
- `EncodingFormat`'s header bit layout, `MutableQuadViewImpl` (`clear`, `fromVanilla`, the setters), `ColorHelper` and `BaseQuadRenderer` are not part of this model. Their effects are fields of `Format` and `Host`, and `FULL_BRIGHTNESS` is the standard sky-and-block-light-15 value. `QuadViews.QuadView.FromVanilla` takes its words from `Format.fromVanilla`; the nominal face and shade flag it sets come from the baked quad, following the upstream `fromVanilla`.
- `renderModel`'s matrix stack, transformation and `emitItemQuads` are left out: this is float matrix maths and foreign model code. `BeginRenderModel` models lines 92, 94-95, 97 and 99: the lightmap; the item, sink provider and transform mode, as the item's host calls (the GUI branch of `selectVertexConsumer` reads the mode); and the cache reset. The overlay, the vanilla handler and the clearing of fields after rendering (112-115) are left out.
- The model sink chosen at line 100 through `selectVertexConsumer(RenderLayers.getItemLayer(...))` is a parameter of `BeginRenderModel`. That call is not recorded in `selected`, because the item layer comes from code that is not part of this model. The GUI and glint choices are folded into `Host.selectVertexConsumer`.
- `transform()` and `hasTransform()` of the base render context are not part of this model. `Accepts` follows the base context's rule: every quad passes when no transform is in effect, and otherwise the transform decides.
- `bufferQuad`, the matrices, the overlay and the normal vector are left out. A buffered quad is a log entry carrying its sink and words.
- The quad transform is a predicate on the quad's words. A transform that edits the quad in place before accepting it is not modelled.
- The `Random` reseeding before each face's `getQuads` call is left out: a model's quads are a function of the cull face.
- `Indium`'s static initializer (property-file I/O, logging) and `onInitializeClient` are left out: this is I/O and host registration.
- Threading is left out: the code is single-threaded.
- Indium.ToLowerCase: folds ASCII letters only, not the full Unicode case mapping of `Locale.ROOT`.
- Indium.AsEnum: takes the enum's constants as a sequence, so the case where `getEnumConstants` returns `null` does not arise.
- QuadViews.QuadView.HasNormal: requires a vertex index below 4; Java's shift by `vertexIndex % 32` for other indices is not modelled.
- QuadViews.QuadView.CopyNormal: requires a vertex index below 4; in Java other indices read a neighbouring quad's words or throw `ArrayIndexOutOfBoundsException`.
- QuadViews.QuadView.NormalX: requires a vertex index below 4; in Java other indices read a neighbouring quad's words or throw `ArrayIndexOutOfBoundsException`.
- QuadViews.QuadView.NormalY: requires a vertex index below 4; in Java other indices read a neighbouring quad's words or throw `ArrayIndexOutOfBoundsException`.
- QuadViews.QuadView.NormalZ: requires a vertex index below 4; in Java other indices read a neighbouring quad's words or throw `ArrayIndexOutOfBoundsException`.
- QuadViews.QuadView.PosByIndex: requires a vertex index below 4 and a coordinate below 3; in Java other indices read a neighbouring quad's words or throw `ArrayIndexOutOfBoundsException`.
- QuadViews.QuadView.X: requires a vertex index below 4; in Java other indices read a neighbouring quad's words or throw `ArrayIndexOutOfBoundsException`.
- QuadViews.QuadView.Y: requires a vertex index below 4; in Java other indices read a neighbouring quad's words or throw `ArrayIndexOutOfBoundsException`.
- QuadViews.QuadView.Z: requires a vertex index below 4; in Java other indices read a neighbouring quad's words or throw `ArrayIndexOutOfBoundsException`.
- QuadViews.QuadView.CopyPos: requires a vertex index below 4; in Java other indices read a neighbouring quad's words or throw `ArrayIndexOutOfBoundsException`.
- QuadViews.QuadView.Lightmap: requires a vertex index below 4; in Java other indices read a neighbouring quad's words or throw `ArrayIndexOutOfBoundsException`.
- QuadViews.QuadView.SpriteColor: requires a vertex index below 4; in Java other indices read a neighbouring quad's words or throw `ArrayIndexOutOfBoundsException`.
- QuadViews.QuadView.SpriteU: requires a vertex index below 4; in Java other indices read a neighbouring quad's words or throw `ArrayIndexOutOfBoundsException`.
- QuadViews.QuadView.SpriteV: requires a vertex index below 4; in Java other indices read a neighbouring quad's words or throw `ArrayIndexOutOfBoundsException`.
- QuadViews.QuadView.CopyTo: requires source and target to use different arrays; a copy within one shared array is not modelled.
- QuadViews.QuadView.CopyTo: requires a valid target, one whose quad lies inside its array; Java throws `ArrayIndexOutOfBoundsException` from `System.arraycopy` otherwise.
- QuadViews.QuadView.CopyToFixed: requires different arrays, as `CopyTo` does, and the same format.
- QuadViews.QuadView.CopyDerivedTo: requires source and target to use different arrays, as `CopyTo` does; a copy within one shared array, which `System.arraycopy` allows, is not modelled.
- QuadViews.QuadView.CopyFixedDerivedTo: requires different arrays and the same format, as `CopyToFixed` does; a copy within one shared array is not modelled.
- QuadViews.QuadView.ToVanilla: requires `targetIndex + QUAD_STRIDE` to lie within the target array; Java throws `ArrayIndexOutOfBoundsException` from `System.arraycopy` otherwise.
- ItemRendering.ItemRenderContext.MeshConsumer: requires the mesh length to be a multiple of `TOTAL_STRIDE`, which finished meshes always are. It also requires the mesh to be a different array from the editor buffer.

## Findings

| source | as written | input that shows it | evidently intended | confidence | as-written member | corrected member |
|---|---|---|---|---|---|---|
| src/main/java/link/infra/indium/renderer/mesh/QuadViewImpl.java:150-151 | `copyTo` copies from word `baseIndex + 1` onwards, so as to skip the material. But word `HEADER_BITS` = 0 holds the cull face, light face, normal flags and geometry flags as well as the material, so the target keeps all five of its own | a source culled on `Up` copied onto a cleared quad: the target has no cull face | copy every word, then put the target's own material back into its header word, so only the material is kept | not executed | QuadViews.QuadView.CopyTo, QuadViews.CopyToLosesCullFace | QuadViews.QuadView.CopyToFixed, QuadViews.FixedCopyKeepsOnlyMaterial |
