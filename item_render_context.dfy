/**
 * `ItemRenderContext`: the per-quad pipeline for items (transform, tint,
 * lightmap, sink selection) fed by direct emission, mesh replay or the
 * vanilla fallback, over one reusable editor quad.
 *
 * Host collaborators are the fields of a `Host` value. What reaches a vertex
 * consumer is recorded in the ghost log `buffered`; every entry into
 * `renderQuad` is recorded in `rendered`.
 */
module ItemRendering {
  import opened Wrappers
  import opened EncodingFormat
  import opened QuadViews

  /** A vertex consumer, known only by identity. */
  type Sink = int

  /** The two render layers the context asks sinks for. */
  datatype Layer = EntityTranslucentCull | EntityCutout

  /**
   * The host calls: the active transform's accept-or-reject decision, the item
   * colour palette for the current stack, `ColorHelper`'s three helpers, and
   * `selectVertexConsumer` (the GUI and glint choices folded in).
   */
  datatype Host = Host(
    transform: Window -> bool,
    palette: Word -> Word,
    multiplyColor: (Word, Word) -> Word,
    swapRedBlueIfNeeded: Word -> Word,
    maxBrightness: (Word, Word) -> Word,
    selectVertexConsumer: Layer -> Sink)

  /** A vanilla model: an identity for the fallback handler, and its quads for each cull face. */
  datatype BakedModel = BakedModel(id: int, quads: Option<Face> -> seq<BakedQuad>)

  /** One entry into `renderQuad`: the editor's words and whether its geometry was marked invalid. */
  datatype RenderCall = RenderCall(words: Window, geometryInvalid: bool)

  /** One `bufferQuad` call: the sink chosen and the quad's words as handed over. */
  datatype Buffered = Buffered(sink: Sink, words: Window)

  /**
   * Everything the outcome of one `renderQuad` depends on besides the quad:
   * the encoding, the host calls of the item being rendered, whether a quad
   * transform is in effect, the item's model sink and its lightmap.
   */
  datatype Pipeline = Pipeline(fmt: Format, host: Host, hasTransform: bool, modelSink: Sink, lightmap: Word)

  /**
   * `transform(quad)` of the base render context: every quad passes when no
   * transform is in effect, and otherwise the transform decides.
   */
  function Accepts(p: Pipeline, w: Window): (r: bool)
    ensures !p.hasTransform ==> r
    ensures p.hasTransform ==> (r <==> p.host.transform(w))
  {
    !p.hasTransform || p.host.transform(w)
  }

  /** The blend mode of the quad an entry into `renderQuad` sees. */
  function ModeOf(p: Pipeline, call: RenderCall): BlendMode
  {
    p.fmt.material(call.words[HEADER_BITS]).blendMode
  }

  /** `BaseQuadRenderer.FULL_BRIGHTNESS`: sky and block light both at 15. */
  const FULL_BRIGHTNESS: Word := 0xF0_00F0

  /** Non-default blend modes share a cached sink as translucent or, for every other mode, cutout. */
  function Collapse(mode: BlendMode): (c: BlendMode)
    requires mode != Default
    ensures c == Translucent || c == Cutout
    ensures c == Translucent <==> mode == Translucent
  {
    if mode != Translucent then Cutout else mode
  }

  /** The layer a collapsed blend mode's sink is selected for. */
  function LayerOf(mode: BlendMode): (l: Layer)
    requires mode == Translucent || mode == Cutout
    ensures l == EntityTranslucentCull <==> mode == Translucent
  {
    if mode == Translucent then EntityTranslucentCull else EntityCutout
  }

  /**
   * The sink a quad of blend mode `mode` belongs in, looked up without any
   * cache: the model sink for `Default`, else the sink selected for the
   * layer of the collapsed mode.
   */
  function SinkFor(host: Host, modelSink: Sink, mode: BlendMode): (s: Sink)
    ensures s == if mode == Default then modelSink else host.selectVertexConsumer(LayerOf(Collapse(mode)))
  {
    match mode
    case Default => modelSink
    case Translucent => host.selectVertexConsumer(EntityTranslucentCull)
    case _ => host.selectVertexConsumer(EntityCutout)
  }

  /** `c` is the colour `rgb` made opaque: alpha byte all ones, RGB bytes those of `rgb`. */
  predicate OpaqueOf(c: Word, rgb: Word)
  {
    c & 0xFF00_0000 == 0xFF00_0000 && c & 0x00FF_FFFF == rgb & 0x00FF_FFFF
  }

  /** The RGB bytes of `rgb` are all ones. */
  predicate White(rgb: Word)
  {
    rgb & 0x00FF_FFFF == 0x00FF_FFFF
  }

  /** Setting the alpha byte makes a colour opaque, and gives -1 exactly for white. */
  lemma OpaqueBits(rgb: Word)
    ensures OpaqueOf(rgb | 0xFF00_0000, rgb)
    ensures rgb | 0xFF00_0000 == MINUS_ONE <==> White(rgb)
  {
  }

  /**
   * `indexColor()`, given the palette colour `rgb` the item colour map has for
   * the quad's colour index: -1 for colour index -1, otherwise `rgb` made
   * opaque.
   */
  function IndexColor(colorIndex: Word, rgb: Word): (c: Word)
    ensures colorIndex == MINUS_ONE ==> c == MINUS_ONE
    ensures colorIndex != MINUS_ONE ==> OpaqueOf(c, rgb)
  {
    if colorIndex == MINUS_ONE then MINUS_ONE else OpaqueBits(rgb); rgb | 0xFF00_0000
  }

  /**
   * The tint is -1, which `multiplyColor` leaves untinted, exactly for colour
   * index -1 and for a white palette colour.
   */
  lemma IndexColorNoTint(colorIndex: Word, rgb: Word)
    ensures IndexColor(colorIndex, rgb) == MINUS_ONE <==> colorIndex == MINUS_ONE || White(rgb)
  {
    OpaqueBits(rgb);
  }

  /**
   * The tint `renderQuad` applies: none (-1) when the material disables the
   * colour index, for colour index -1 and for a white palette colour; any
   * other tint is the palette colour, opaque.
   */
  function QuadColor(host: Host, mat: Material, colorIndex: Word): (c: Word)
    ensures c == MINUS_ONE <==> mat.disableColorIndex || colorIndex == MINUS_ONE || White(host.palette(colorIndex))
    ensures !mat.disableColorIndex && colorIndex != MINUS_ONE ==> OpaqueOf(c, host.palette(colorIndex))
  {
    IndexColorNoTint(colorIndex, host.palette(colorIndex));
    if mat.disableColorIndex then MINUS_ONE else IndexColor(colorIndex, host.palette(colorIndex))
  }

  /** The lightmap floor `renderQuad` applies: full brightness for emissive materials, else the context's. */
  function QuadLightmap(mat: Material, lightmap: Word): (l: Word)
    ensures mat.emissive ==> l == FULL_BRIGHTNESS
    ensures !mat.emissive ==> l == lightmap
  {
    if mat.emissive then FULL_BRIGHTNESS else lightmap
  }

  /**
   * One pass of the `renderQuad` loop: vertex `i`'s colour becomes the
   * channel-corrected product of the tint and its old colour, its lightmap
   * the brighter of its old lightmap and the floor, and every other word is
   * kept.
   */
  function TintVertex(host: Host, w: Window, i: nat, quadColor: Word, lightmap: Word): (r: Window)
    requires i < 4
    ensures r[VertexWord(i, VERTEX_COLOR)] == host.swapRedBlueIfNeeded(host.multiplyColor(quadColor, w[VertexWord(i, VERTEX_COLOR)]))
    ensures r[VertexWord(i, VERTEX_LIGHTMAP)] == host.maxBrightness(w[VertexWord(i, VERTEX_LIGHTMAP)], lightmap)
    ensures forall k :: 0 <= k < TOTAL_STRIDE && k != VertexWord(i, VERTEX_COLOR) && k != VertexWord(i, VERTEX_LIGHTMAP) ==> r[k] == w[k]
  {
    var c := VertexWord(i, VERTEX_COLOR);
    var l := VertexWord(i, VERTEX_LIGHTMAP);
    w[c := host.swapRedBlueIfNeeded(host.multiplyColor(quadColor, w[c]))][l := host.maxBrightness(w[l], lightmap)]
  }

  /** A word earlier passes rewrote is none of the words pass `n` rewrites. */
  lemma LaterVertexApart(n: nat, i: nat)
    requires i < n < 4
    ensures VertexWord(n, VERTEX_COLOR) != VertexWord(i, VERTEX_COLOR) && VertexWord(n, VERTEX_COLOR) != VertexWord(i, VERTEX_LIGHTMAP)
    ensures VertexWord(n, VERTEX_LIGHTMAP) != VertexWord(i, VERTEX_COLOR) && VertexWord(n, VERTEX_LIGHTMAP) != VertexWord(i, VERTEX_LIGHTMAP)
  {
  }

  /** The first `n` passes of the loop. */
  function TintVertices(host: Host, w: Window, n: nat, quadColor: Word, lightmap: Word): Window
    requires n <= 4
  {
    if n == 0 then w else TintVertex(host, TintVertices(host, w, n - 1, quadColor, lightmap), n - 1, quadColor, lightmap)
  }

  /** After `n` passes, every word no pass has rewritten is as it was. */
  lemma {:induction false} TintVerticesKeep(host: Host, w: Window, n: nat, quadColor: Word, lightmap: Word)
    requires n <= 4
    ensures forall k :: 0 <= k < TOTAL_STRIDE && (forall i :: 0 <= i < n ==> k != VertexWord(i, VERTEX_COLOR) && k != VertexWord(i, VERTEX_LIGHTMAP)) ==>
              TintVertices(host, w, n, quadColor, lightmap)[k] == w[k]
  {
    if n > 0 {
      TintVerticesKeep(host, w, n - 1, quadColor, lightmap);
    }
  }

  /** Vertex `n` has not been touched by the passes before it. */
  lemma VertexUntouched(host: Host, w: Window, n: nat, quadColor: Word, lightmap: Word)
    requires n < 4
    ensures TintVertices(host, w, n, quadColor, lightmap)[VertexWord(n, VERTEX_COLOR)] == w[VertexWord(n, VERTEX_COLOR)]
    ensures TintVertices(host, w, n, quadColor, lightmap)[VertexWord(n, VERTEX_LIGHTMAP)] == w[VertexWord(n, VERTEX_LIGHTMAP)]
  {
    TintVerticesKeep(host, w, n, quadColor, lightmap);
    forall i | 0 <= i < n {
      LaterVertexApart(n, i);
    }
  }

  /** After `n` passes, vertices below `n` have been rewritten from their original words. */
  lemma {:induction false} TintVerticesRewrite(host: Host, w: Window, n: nat, quadColor: Word, lightmap: Word)
    requires n <= 4
    ensures forall i :: 0 <= i < n ==>
              TintVertices(host, w, n, quadColor, lightmap)[VertexWord(i, VERTEX_COLOR)] ==
                host.swapRedBlueIfNeeded(host.multiplyColor(quadColor, w[VertexWord(i, VERTEX_COLOR)])) &&
              TintVertices(host, w, n, quadColor, lightmap)[VertexWord(i, VERTEX_LIGHTMAP)] ==
                host.maxBrightness(w[VertexWord(i, VERTEX_LIGHTMAP)], lightmap)
  {
    if n > 0 {
      TintVerticesRewrite(host, w, n - 1, quadColor, lightmap);
      VertexUntouched(host, w, n - 1, quadColor, lightmap);
      forall i | 0 <= i < n - 1 {
        LaterVertexApart(n - 1, i);
      }
    }
  }

  /** After `n` passes, vertices below `n` have been rewritten from their original words, and every other word is as it was. */
  lemma TintVerticesAt(host: Host, w: Window, n: nat, quadColor: Word, lightmap: Word)
    requires n <= 4
    ensures forall i :: 0 <= i < n ==>
              TintVertices(host, w, n, quadColor, lightmap)[VertexWord(i, VERTEX_COLOR)] ==
                host.swapRedBlueIfNeeded(host.multiplyColor(quadColor, w[VertexWord(i, VERTEX_COLOR)])) &&
              TintVertices(host, w, n, quadColor, lightmap)[VertexWord(i, VERTEX_LIGHTMAP)] ==
                host.maxBrightness(w[VertexWord(i, VERTEX_LIGHTMAP)], lightmap)
    ensures forall k :: 0 <= k < TOTAL_STRIDE && (forall i :: 0 <= i < n ==> k != VertexWord(i, VERTEX_COLOR) && k != VertexWord(i, VERTEX_LIGHTMAP)) ==>
              TintVertices(host, w, n, quadColor, lightmap)[k] == w[k]
  {
    TintVerticesRewrite(host, w, n, quadColor, lightmap);
    TintVerticesKeep(host, w, n, quadColor, lightmap);
  }

  /**
   * The colour and lightmap laws of `renderQuad`: each vertex colour becomes
   * the channel-order-corrected product of tint and sprite colour, each
   * lightmap the brighter of its own and the floor; no other word changes.
   */
  function Tinted(host: Host, w: Window, quadColor: Word, lightmap: Word): (r: Window)
    ensures forall i :: 0 <= i < 4 ==>
              r[VertexWord(i, VERTEX_COLOR)] == host.swapRedBlueIfNeeded(host.multiplyColor(quadColor, w[VertexWord(i, VERTEX_COLOR)])) &&
              r[VertexWord(i, VERTEX_LIGHTMAP)] == host.maxBrightness(w[VertexWord(i, VERTEX_LIGHTMAP)], lightmap)
    ensures forall k :: 0 <= k < TOTAL_STRIDE && (forall i :: 0 <= i < 4 ==> k != VertexWord(i, VERTEX_COLOR) && k != VertexWord(i, VERTEX_LIGHTMAP)) ==>
              r[k] == w[k]
  {
    TintVerticesAt(host, w, 4, quadColor, lightmap);
    TintVertices(host, w, 4, quadColor, lightmap)
  }

  /** The words `renderQuad` hands to its sink for a quad it accepts. */
  function Shaded(p: Pipeline, w: Window): (r: Window)
    ensures forall k :: 0 <= k < HEADER_STRIDE ==> r[k] == w[k]
  {
    var mat := p.fmt.material(w[HEADER_BITS]);
    Tinted(p.host, w, QuadColor(p.host, mat, w[HEADER_COLOR_INDEX]), QuadLightmap(mat, p.lightmap))
  }

  /** What one entry into `renderQuad` buffers: nothing when the transform rejects the quad, else one quad in its blend mode's sink. */
  function Output(p: Pipeline, call: RenderCall): (out: seq<Buffered>)
    ensures |out| <= 1
    ensures |out| == 1 <==> !p.hasTransform || p.host.transform(call.words)
    ensures |out| == 1 ==> out[0] == Buffered(SinkFor(p.host, p.modelSink, ModeOf(p, call)), Shaded(p, call.words))
  {
    if Accepts(p, call.words)
    then [Buffered(SinkFor(p.host, p.modelSink, ModeOf(p, call)), Shaded(p, call.words))]
    else []
  }

  /** What a run of entries into `renderQuad` buffers, in order. */
  function Outputs(p: Pipeline, calls: seq<RenderCall>): (r: seq<Buffered>)
    ensures |r| <= |calls|
  {
    if calls == [] then [] else Outputs(p, calls[..|calls| - 1]) + Output(p, calls[|calls| - 1])
  }

  /** One more entry buffers what it alone would, after the rest. */
  lemma OutputsSnoc(p: Pipeline, calls: seq<RenderCall>, call: RenderCall)
    ensures Outputs(p, calls + [call]) == Outputs(p, calls) + Output(p, call)
  {
    assert (calls + [call])[..|calls|] == calls;
  }

  /** Buffering is per quad: two runs buffer what each would alone, one after the other. */
  lemma {:induction false} OutputsAppend(p: Pipeline, a: seq<RenderCall>, b: seq<RenderCall>)
    ensures Outputs(p, a + b) == Outputs(p, a) + Outputs(p, b)
    decreases |b|
  {
    if b == [] {
      assert a + b == a;
    } else {
      var init, last := b[..|b| - 1], b[|b| - 1];
      assert a + b == (a + init) + [last] && b == init + [last];
      OutputsAppend(p, a, init);
      OutputsSnoc(p, a + init, last);
      OutputsSnoc(p, init, last);
      AppendAssoc(Outputs(p, a), Outputs(p, init), Output(p, last));
    }
  }

  /**
   * The sink cache after one entry into `renderQuad`: an accepted quad of a
   * non-default mode leaves its collapsed mode cached, whether it hit or
   * missed; any other entry leaves the cache as it was.
   */
  function CacheStep(p: Pipeline, cached: BlendMode, call: RenderCall): (c: BlendMode)
    ensures c == cached || c == Translucent || c == Cutout
  {
    if Accepts(p, call.words) && ModeOf(p, call) != Default then Collapse(ModeOf(p, call)) else cached
  }

  /**
   * The `selectVertexConsumer` calls one entry into `renderQuad` makes: one,
   * for the collapsed mode's layer, exactly when an accepted quad of a
   * non-default mode misses the cache; none otherwise.
   */
  function SelectionStep(p: Pipeline, cached: BlendMode, call: RenderCall): (s: seq<Layer>)
    ensures |s| <= 1
    ensures |s| == 1 <==> Accepts(p, call.words) && ModeOf(p, call) != Default && Collapse(ModeOf(p, call)) != cached
    ensures |s| == 1 ==> s[0] == LayerOf(Collapse(ModeOf(p, call)))
  {
    if Accepts(p, call.words) && ModeOf(p, call) != Default && Collapse(ModeOf(p, call)) != cached
    then [LayerOf(Collapse(ModeOf(p, call)))]
    else []
  }

  /** The sink cache after a run of entries into `renderQuad`, starting from `cached`. */
  function CacheAfter(p: Pipeline, cached: BlendMode, calls: seq<RenderCall>): (c: BlendMode)
    ensures c == cached || c == Translucent || c == Cutout
  {
    if calls == [] then cached else CacheStep(p, CacheAfter(p, cached, calls[..|calls| - 1]), calls[|calls| - 1])
  }

  /** The `selectVertexConsumer` calls a run of entries into `renderQuad` makes, in order, starting from `cached`. */
  function Selections(p: Pipeline, cached: BlendMode, calls: seq<RenderCall>): (s: seq<Layer>)
    ensures |s| <= |calls|
  {
    if calls == [] then []
    else
      var init := calls[..|calls| - 1];
      Selections(p, cached, init) + SelectionStep(p, CacheAfter(p, cached, init), calls[|calls| - 1])
  }

  /** One more entry moves the cache one step and appends its selections. */
  lemma CacheSnoc(p: Pipeline, cached: BlendMode, calls: seq<RenderCall>, call: RenderCall)
    ensures CacheAfter(p, cached, calls + [call]) == CacheStep(p, CacheAfter(p, cached, calls), call)
    ensures Selections(p, cached, calls + [call]) == Selections(p, cached, calls) + SelectionStep(p, CacheAfter(p, cached, calls), call)
  {
    assert (calls + [call])[..|calls|] == calls;
  }

  /** Two runs of entries move the cache as the second from where the first left it. */
  lemma {:induction false} CacheAppend(p: Pipeline, cached: BlendMode, a: seq<RenderCall>, b: seq<RenderCall>)
    ensures CacheAfter(p, cached, a + b) == CacheAfter(p, CacheAfter(p, cached, a), b)
    ensures Selections(p, cached, a + b) == Selections(p, cached, a) + Selections(p, CacheAfter(p, cached, a), b)
    decreases |b|
  {
    if b == [] {
      assert a + b == a;
    } else {
      var init, last := b[..|b| - 1], b[|b| - 1];
      assert a + b == (a + init) + [last] && b == init + [last];
      CacheAppend(p, cached, a, init);
      CacheSnoc(p, cached, a + init, last);
      CacheSnoc(p, CacheAfter(p, cached, a), init, last);
      AppendAssoc(Selections(p, cached, a), Selections(p, CacheAfter(p, cached, a), init),
                  SelectionStep(p, CacheAfter(p, cached, a + init), last));
    }
  }

  /**
   * The point of the cache: in a run whose accepted non-default quads all
   * collapse to the same mode `m`, the sink for `m` is selected at most once,
   * and not at all when `m` is already cached; the cache ends as it started
   * or holding `m`.
   */
  lemma {:induction false} OneModeSelectsOnce(p: Pipeline, cached: BlendMode, calls: seq<RenderCall>, m: BlendMode)
    requires m == Translucent || m == Cutout
    requires forall k :: 0 <= k < |calls| && Accepts(p, calls[k].words) && ModeOf(p, calls[k]) != Default ==> Collapse(ModeOf(p, calls[k])) == m
    ensures CacheAfter(p, cached, calls) == cached || CacheAfter(p, cached, calls) == m
    ensures cached == m ==> Selections(p, cached, calls) == []
    ensures cached != m ==> Selections(p, cached, calls) == [] || Selections(p, cached, calls) == [LayerOf(m)]
    ensures Selections(p, cached, calls) == [] <==> CacheAfter(p, cached, calls) == cached
  {
    if calls != [] {
      var init := calls[..|calls| - 1];
      var last := calls[|calls| - 1];
      assert forall k :: 0 <= k < |init| ==> init[k] == calls[k];
      OneModeSelectsOnce(p, cached, init, m);
      var c := CacheAfter(p, cached, init);
      if Accepts(p, last.words) && ModeOf(p, last) != Default {
        assert Collapse(ModeOf(p, last)) == m;
      }
    }
  }

  /**
   * The logs and the cache after the run `calls`, from logs `r0`, `b0`, `s0`
   * and cache `cached`: every entry recorded, each one's output buffered
   * and its selections made, in order, and the cache moved along.
   */
  ghost predicate RunLogs(p: Pipeline, r0: seq<RenderCall>, b0: seq<Buffered>, s0: seq<Layer>, cached: BlendMode,
                          calls: seq<RenderCall>, r: seq<RenderCall>, b: seq<Buffered>, s: seq<Layer>, c: BlendMode)
  {
    r == r0 + calls && b == b0 + Outputs(p, calls) && s == s0 + Selections(p, cached, calls) && c == CacheAfter(p, cached, calls)
  }

  /** A run followed by one more entry. */
  lemma RunLogsSnoc(p: Pipeline, r0: seq<RenderCall>, b0: seq<Buffered>, s0: seq<Layer>, cached: BlendMode,
                    calls: seq<RenderCall>, r: seq<RenderCall>, b: seq<Buffered>, s: seq<Layer>, c: BlendMode, call: RenderCall)
    requires RunLogs(p, r0, b0, s0, cached, calls, r, b, s, c)
    ensures RunLogs(p, r0, b0, s0, cached, calls + [call], r + [call], b + Output(p, call), s + SelectionStep(p, c, call), CacheStep(p, c, call))
  {
    OutputsSnoc(p, calls, call);
    CacheSnoc(p, cached, calls, call);
    AppendAssoc(r0, calls, [call]);
    AppendAssoc(b0, Outputs(p, calls), Output(p, call));
    AppendAssoc(s0, Selections(p, cached, calls), SelectionStep(p, c, call));
  }

  /** A run followed by another run. */
  lemma RunLogsAppend(p: Pipeline, r0: seq<RenderCall>, b0: seq<Buffered>, s0: seq<Layer>, cached: BlendMode,
                      calls: seq<RenderCall>, r: seq<RenderCall>, b: seq<Buffered>, s: seq<Layer>, c: BlendMode, more: seq<RenderCall>)
    requires RunLogs(p, r0, b0, s0, cached, calls, r, b, s, c)
    ensures RunLogs(p, r0, b0, s0, cached, calls + more, r + more, b + Outputs(p, more), s + Selections(p, c, more), CacheAfter(p, c, more))
  {
    OutputsAppend(p, calls, more);
    CacheAppend(p, cached, calls, more);
    AppendAssoc(r0, calls, more);
    AppendAssoc(b0, Outputs(p, calls), Outputs(p, more));
    AppendAssoc(s0, Selections(p, cached, calls), Selections(p, c, more));
  }

  /** The entries mesh replay makes: one per stride of the mesh, each a freshly loaded quad. */
  function Replay(mesh: seq<Word>): (r: seq<RenderCall>)
    requires |mesh| % TOTAL_STRIDE == 0
    ensures |r| == |mesh| / TOTAL_STRIDE
    decreases |mesh|
  {
    if mesh == [] then [] else [RenderCall(mesh[..TOTAL_STRIDE], false)] + Replay(mesh[TOTAL_STRIDE..])
  }

  /** Replaying two meshes back to back is replaying each. */
  lemma {:induction false} ReplayAppend(a: seq<Word>, b: seq<Word>)
    requires |a| % TOTAL_STRIDE == 0 && |b| % TOTAL_STRIDE == 0
    ensures Replay(a + b) == Replay(a) + Replay(b)
    decreases |a|
  {
    if a == [] {
      assert a + b == b;
    } else {
      assert (a + b)[..TOTAL_STRIDE] == a[..TOTAL_STRIDE];
      assert (a + b)[TOTAL_STRIDE..] == a[TOTAL_STRIDE..] + b;
      ReplayAppend(a[TOTAL_STRIDE..], b);
    }
  }

  /** In a stride-aligned mesh, an aligned offset short of the end has a whole stride after it, and the next offset is aligned too. */
  lemma StrideStep(index: nat, limit: nat)
    requires index % TOTAL_STRIDE == 0 && limit % TOTAL_STRIDE == 0 && index < limit
    ensures index + TOTAL_STRIDE <= limit && (index + TOTAL_STRIDE) % TOTAL_STRIDE == 0
  {
  }

  /** Replay up to one more stride is replay up to here, then that stride. */
  lemma ReplayStep(mesh: seq<Word>, index: nat)
    requires index % TOTAL_STRIDE == 0 && index + TOTAL_STRIDE <= |mesh|
    ensures Replay(mesh[..index + TOTAL_STRIDE]) == Replay(mesh[..index]) + [RenderCall(mesh[index..index + TOTAL_STRIDE], false)]
  {
    var chunk := mesh[index..index + TOTAL_STRIDE];
    assert mesh[..index + TOTAL_STRIDE] == mesh[..index] + chunk;
    ReplayAppend(mesh[..index], chunk);
    assert chunk[..TOTAL_STRIDE] == chunk && chunk[TOTAL_STRIDE..] == [];
  }

  /** Stride `k` of a mesh of more than `k` strides lies inside it. */
  lemma StrideBound(k: nat, len: nat)
    requires len % TOTAL_STRIDE == 0 && k < len / TOTAL_STRIDE
    ensures (k + 1) * TOTAL_STRIDE <= len
  {
  }

  /** The offsets of consecutive strides. */
  lemma StrideMulStep(k: nat)
    requires k > 0
    ensures (k - 1) * TOTAL_STRIDE + TOTAL_STRIDE == k * TOTAL_STRIDE && k * TOTAL_STRIDE + TOTAL_STRIDE == (k + 1) * TOTAL_STRIDE
  {
  }

  /** Mesh replay renders `|mesh| / TOTAL_STRIDE` quads, the `k`-th being the mesh's `k`-th stride. */
  lemma {:induction false} ReplayAt(mesh: seq<Word>, k: nat)
    requires |mesh| % TOTAL_STRIDE == 0 && k < |mesh| / TOTAL_STRIDE
    ensures Replay(mesh)[k] == RenderCall(mesh[k * TOTAL_STRIDE..(k + 1) * TOTAL_STRIDE], false)
    decreases |mesh|
  {
    StrideBound(k, |mesh|);
    if k > 0 {
      var rest := mesh[TOTAL_STRIDE..];
      assert |rest| / TOTAL_STRIDE == |mesh| / TOTAL_STRIDE - 1;
      ReplayAt(rest, k - 1);
      var lo := (k - 1) * TOTAL_STRIDE;
      StrideMulStep(k);
      assert rest[lo..lo + TOTAL_STRIDE] == mesh[lo + TOTAL_STRIDE..lo + 2 * TOTAL_STRIDE];
    }
  }

  /**
   * The entries the fallback makes for a list of vanilla quads: each quad of
   * the list once, in list order, converted with the list's cull face and
   * left to derive its geometry.
   */
  function VanillaCalls(fmt: Format, quads: seq<BakedQuad>, cullFace: Option<Face>): (r: seq<RenderCall>)
    ensures |r| == |quads|
    ensures forall k :: 0 <= k < |quads| ==> r[k] == RenderCall(fmt.fromVanilla(quads[k], cullFace), true)
  {
    if quads == [] then []
    else VanillaCalls(fmt, quads[..|quads| - 1], cullFace) + [RenderCall(fmt.fromVanilla(quads[|quads| - 1], cullFace), true)]
  }

  /** Converting one more quad of the list appends its entry. */
  lemma VanillaCallsStep(fmt: Format, quads: seq<BakedQuad>, k: nat, cullFace: Option<Face>)
    requires k < |quads|
    ensures VanillaCalls(fmt, quads[..k + 1], cullFace) == VanillaCalls(fmt, quads[..k], cullFace) + [RenderCall(fmt.fromVanilla(quads[k], cullFace), true)]
  {
    assert quads[..k + 1][..k] == quads[..k];
  }

  /**
   * The entries the transformed fallback makes for face ids `0 .. n - 1`, in
   * that order: as many as the model has quads for those ids.
   */
  function FallbackCalls(fmt: Format, model: BakedModel, n: nat): (r: seq<RenderCall>)
    requires n <= NULL_FACE_ID + 1
    ensures |r| == QuadsUpTo(model, n)
  {
    if n == 0 then []
    else FallbackCalls(fmt, model, n - 1) + VanillaCalls(fmt, model.quads(FaceFromIndex(n - 1)), FaceFromIndex(n - 1))
  }

  /** Rendering one more face id appends that face's entries. */
  lemma FallbackCallsStep(fmt: Format, model: BakedModel, i: nat)
    requires i <= NULL_FACE_ID
    ensures FallbackCalls(fmt, model, i + 1) == FallbackCalls(fmt, model, i) + VanillaCalls(fmt, model.quads(FaceFromIndex(i)), FaceFromIndex(i))
  {
  }

  /** The number of quads a model has for face ids `0 .. n - 1`. */
  function QuadsUpTo(model: BakedModel, n: nat): nat
    requires n <= NULL_FACE_ID + 1
  {
    if n == 0 then 0 else QuadsUpTo(model, n - 1) + |model.quads(FaceFromIndex(n - 1))|
  }

  /**
   * The loop of `renderQuad`, which writes each vertex colour and lightmap
   * through the editor's setters, here straight into the quad's words.
   */
  method TintQuad(host: Host, data: array<Word>, quadColor: Word, lightmap: Word)
    requires data.Length == TOTAL_STRIDE
    modifies data
    ensures data[..] == Tinted(host, old(data[..]), quadColor, lightmap)
  {
    ghost var w: Window := data[..];
    for i := 0 to 4
      invariant data[..] == TintVertices(host, w, i, quadColor, lightmap)
    {
      ghost var before := data[..];
      var colorAt := VertexWord(i, VERTEX_COLOR);
      var lightmapAt := VertexWord(i, VERTEX_LIGHTMAP);
      var c := data[colorAt];
      c := host.multiplyColor(quadColor, c);
      data[colorAt] := host.swapRedBlueIfNeeded(c);
      assert data[..] == before[colorAt := host.swapRedBlueIfNeeded(c)];
      data[lightmapAt] := host.maxBrightness(data[lightmapAt], lightmap);
    }
  }

  /** Concatenation regroups freely; each loop below appends one batch to a log. */
  lemma AppendAssoc<T>(a: seq<T>, b: seq<T>, c: seq<T>)
    ensures (a + b) + c == a + (b + c)
  {
  }

  class ItemRenderContext {
    /** The host calls for the item being rendered: its stack, transform mode and vertex consumer provider. */
    var host: Host
    /** The single reusable quad buffer. */
    const quadData: array<Word>
    /** The emitter handed to models, backed by `quadData`. */
    const editorQuad: QuadView
    var modelVertexConsumer: Sink
    var quadBlendMode: BlendMode
    var quadVertexConsumer: Option<Sink>
    var lightmap: Word
    /** Whether the render context has a quad transform in effect. */
    var hasTransform: bool

    ghost var rendered: seq<RenderCall>
    ghost var buffered: seq<Buffered>
    ghost var selected: seq<Layer>
    ghost var vanillaCalls: seq<int>

    /**
     * The editor sits at index 0 of `quadData`, and the sink cache is either
     * empty (mode `Default`) or holds the sink selected for its mode.
     */
    ghost predicate Valid()
      reads this, editorQuad
    {
      editorQuad.data == quadData && editorQuad.baseIndex == 0 && quadData.Length == TOTAL_STRIDE &&
      (quadBlendMode == Default || quadBlendMode == Translucent || quadBlendMode == Cutout) &&
      (quadBlendMode != Default ==> quadVertexConsumer == Some(host.selectVertexConsumer(LayerOf(quadBlendMode))))
    }

    /** The parameters of this render call's pipeline. */
    ghost function Pipe(): Pipeline
      reads this
    {
      Pipeline(editorQuad.fmt, host, hasTransform, modelVertexConsumer, lightmap)
    }

    /** The context with its editor quad, prepared for one item as `renderModel` prepares it. */
    constructor (fmt: Format, host: Host, modelVertexConsumer: Sink, lightmap: Word, hasTransform: bool)
      ensures Valid() && fresh(quadData) && fresh(editorQuad)
      ensures this.host == host && editorQuad.fmt == fmt
      ensures this.modelVertexConsumer == modelVertexConsumer && this.lightmap == lightmap && this.hasTransform == hasTransform
      ensures quadBlendMode == Default && quadVertexConsumer == None
      ensures editorQuad.Words() == fmt.cleared && editorQuad.isGeometryInvalid
      ensures rendered == [] && buffered == [] && selected == [] && vanillaCalls == []
    {
      this.host := host;
      var buffer := new Word[TOTAL_STRIDE];
      quadData := buffer;
      editorQuad := new QuadView.Maker(fmt, buffer);
      this.modelVertexConsumer := modelVertexConsumer;
      this.lightmap := lightmap;
      this.hasTransform := hasTransform;
      quadBlendMode := Default;
      quadVertexConsumer := None;
      rendered, buffered, selected, vanillaCalls := [], [], [], [];
    }

    /**
     * The start of `renderModel`: the new item's host calls (its stack,
     * transform mode and vertex consumer provider) and lightmap, an emptied
     * sink cache, and the item's model sink. The sink cached for the previous
     * item came from that item's host, so without the reset `Valid()` would
     * not hold for the new one.
     */
    method BeginRenderModel(host: Host, lightmap: Word, modelVertexConsumer: Sink)
      requires Valid()
      modifies this`host, this`lightmap, this`quadBlendMode, this`modelVertexConsumer
      ensures Valid()
      ensures this.host == host && this.lightmap == lightmap && this.modelVertexConsumer == modelVertexConsumer
      ensures quadBlendMode == Default
    {
      this.host := host;
      this.lightmap := lightmap;
      quadBlendMode := Default;
      this.modelVertexConsumer := modelVertexConsumer;
    }

    /** `selectVertexConsumer(layer)`, with the call recorded. */
    method SelectVertexConsumer(layer: Layer) returns (sink: Sink)
      modifies this`selected
      ensures sink == host.selectVertexConsumer(layer)
      ensures selected == old(selected) + [layer]
    {
      sink := host.selectVertexConsumer(layer);
      selected := selected + [layer];
    }

    /**
     * `quadVertexConsumer(blendMode)`: the model sink for `Default`; else the
     * cached sink when the collapsed mode is the cached one, and otherwise a
     * freshly selected sink, which becomes the cache. Whichever path it takes,
     * the sink is the one an uncached lookup gives.
     */
    method QuadVertexConsumer(blendMode: BlendMode) returns (sink: Sink)
      requires Valid()
      modifies this`quadBlendMode, this`quadVertexConsumer, this`selected
      ensures Valid()
      ensures sink == SinkFor(host, modelVertexConsumer, blendMode)
      ensures blendMode == Default || Collapse(blendMode) == old(quadBlendMode) ==>
                quadBlendMode == old(quadBlendMode) && quadVertexConsumer == old(quadVertexConsumer) && selected == old(selected)
      ensures blendMode != Default && Collapse(blendMode) != old(quadBlendMode) ==>
                quadBlendMode == Collapse(blendMode) && quadVertexConsumer == Some(sink) &&
                selected == old(selected) + [LayerOf(Collapse(blendMode))]
    {
      if blendMode == Default {
        return modelVertexConsumer;
      }
      var mode := blendMode;
      if mode != Translucent {
        mode := Cutout;
      }
      if mode == quadBlendMode {
        return quadVertexConsumer.value;
      } else if mode == Translucent {
        var s := SelectVertexConsumer(EntityTranslucentCull);
        quadVertexConsumer := Some(s);
        quadBlendMode := Translucent;
      } else {
        var s := SelectVertexConsumer(EntityCutout);
        quadVertexConsumer := Some(s);
        quadBlendMode := Cutout;
      }
      return quadVertexConsumer.value;
    }

    /**
     * `renderQuad()`: nothing is buffered when the transform rejects the
     * editor quad; otherwise the four colours and lightmaps are rewritten in
     * place and the quad is buffered once, in its blend mode's sink. The sink
     * cache moves as `CacheStep` says and the selections are `SelectionStep`'s.
     */
    method RenderQuad()
      requires Valid()
      modifies this`quadBlendMode, this`quadVertexConsumer, this`selected, this`rendered, this`buffered, quadData
      ensures Valid() && Pipe() == old(Pipe())
      ensures rendered == old(rendered) + [RenderCall(old(editorQuad.Words()), old(editorQuad.isGeometryInvalid))]
      ensures buffered == old(buffered) + Output(Pipe(), RenderCall(old(editorQuad.Words()), old(editorQuad.isGeometryInvalid)))
      ensures quadData[..] == if Accepts(Pipe(), old(editorQuad.Words())) then Shaded(Pipe(), old(editorQuad.Words())) else old(quadData[..])
      ensures quadBlendMode == CacheStep(Pipe(), old(quadBlendMode), RenderCall(old(editorQuad.Words()), old(editorQuad.isGeometryInvalid)))
      ensures selected == old(selected) + SelectionStep(Pipe(), old(quadBlendMode), RenderCall(old(editorQuad.Words()), old(editorQuad.isGeometryInvalid)))
      ensures quadBlendMode == old(quadBlendMode) ==> quadVertexConsumer == old(quadVertexConsumer)
    {
      assert editorQuad.Words() == quadData[..];
      ghost var call := RenderCall(quadData[..], editorQuad.isGeometryInvalid);
      ghost var p := Pipe();
      rendered := rendered + [call];
      if hasTransform && !host.transform(quadData[..]) {
        assert Pipe() == p;
        return;
      }
      var mode := ShadeEditor();
      BufferEditor(mode, call);
      assert Output(p, call) == [Buffered(SinkFor(host, modelVertexConsumer, mode), quadData[..])];
    }

    /**
     * The end of `renderQuad`: the editor's words buffered once, in the sink
     * `quadVertexConsumer` gives for the quad's blend mode, with the cache
     * moved as `CacheStep` says and the selections `SelectionStep`'s.
     */
    method BufferEditor(mode: BlendMode, ghost call: RenderCall)
      requires Valid() && Accepts(Pipe(), call.words) && mode == ModeOf(Pipe(), call)
      modifies this`quadBlendMode, this`quadVertexConsumer, this`selected, this`buffered
      ensures Valid() && Pipe() == old(Pipe())
      ensures buffered == old(buffered) + [Buffered(SinkFor(host, modelVertexConsumer, mode), quadData[..])]
      ensures quadBlendMode == CacheStep(Pipe(), old(quadBlendMode), call)
      ensures selected == old(selected) + SelectionStep(Pipe(), old(quadBlendMode), call)
      ensures quadBlendMode == old(quadBlendMode) ==> quadVertexConsumer == old(quadVertexConsumer)
    {
      var sink := QuadVertexConsumer(mode);
      buffered := buffered + [Buffered(sink, quadData[..])];
    }

    /**
     * The accepted half of `renderQuad` up to the sink lookup: the tint and
     * lightmap floor the editor's material calls for, applied by the loop;
     * the material's blend mode is returned for the lookup.
     */
    method ShadeEditor() returns (mode: BlendMode)
      requires Valid()
      modifies quadData
      ensures quadData[..] == Shaded(Pipe(), old(quadData[..]))
      ensures mode == editorQuad.fmt.material(old(quadData[..])[HEADER_BITS]).blendMode
    {
      assert editorQuad.Words() == quadData[..];
      var mat := editorQuad.Material();
      var quadColor := QuadColor(host, mat, editorQuad.ColorIndex());
      var light := QuadLightmap(mat, lightmap);
      TintQuad(host, quadData, quadColor, light);
      mode := mat.blendMode;
    }

    /**
     * `meshConsumer`: copies each stride of the mesh into the editor's buffer,
     * loads it and renders it, in mesh order; the mesh is only read.
     */
    method MeshConsumer(mesh: array<Word>)
      requires Valid() && mesh != quadData && mesh.Length % TOTAL_STRIDE == 0
      modifies this`quadBlendMode, this`quadVertexConsumer, this`selected, this`rendered, this`buffered, quadData
      modifies editorQuad`isGeometryInvalid, editorQuad`nominalFace, editorQuad`faceNormal
      ensures Valid()
      ensures rendered == old(rendered) + Replay(old(mesh[..]))
      ensures buffered == old(buffered) + Outputs(Pipe(), Replay(old(mesh[..])))
      ensures quadBlendMode == CacheAfter(Pipe(), old(quadBlendMode), Replay(old(mesh[..])))
      ensures selected == old(selected) + Selections(Pipe(), old(quadBlendMode), Replay(old(mesh[..])))
      ensures mesh[..] == old(mesh[..])
    {
      ghost var m := mesh[..];
      ghost var p := Pipe();
      ghost var r0, b0, s0, cached := rendered, buffered, selected, quadBlendMode;
      var limit := mesh.Length;
      var index := 0;
      while index < limit
        invariant 0 <= index <= limit == |m| && index % TOTAL_STRIDE == 0
        invariant Valid() && Pipe() == p && mesh[..] == m
        invariant RunLogs(p, r0, b0, s0, cached, Replay(m[..index]), rendered, buffered, selected, quadBlendMode)
      {
        StrideStep(index, limit);
        ghost var call := RenderCall(m[index..index + TOTAL_STRIDE], false);
        RunLogsSnoc(p, r0, b0, s0, cached, Replay(m[..index]), rendered, buffered, selected, quadBlendMode, call);
        ReplayQuad(mesh, index, call);
        ReplayStep(m, index);
        index := index + TOTAL_STRIDE;
      }
      assert m[..index] == m;
    }

    /** One pass of the `meshConsumer` loop: the stride at `index` copied into the editor, loaded and rendered. */
    method ReplayQuad(mesh: array<Word>, index: nat, ghost call: RenderCall)
      requires Valid() && mesh != quadData && index + TOTAL_STRIDE <= mesh.Length
      requires call == RenderCall(mesh[index..index + TOTAL_STRIDE], false)
      modifies this`quadBlendMode, this`quadVertexConsumer, this`selected, this`rendered, this`buffered, quadData
      modifies editorQuad`isGeometryInvalid, editorQuad`nominalFace, editorQuad`faceNormal
      ensures Valid()
      ensures Pipe() == old(Pipe())
      ensures rendered == old(rendered) + [call]
      ensures buffered == old(buffered) + Output(Pipe(), call)
      ensures quadBlendMode == CacheStep(Pipe(), old(quadBlendMode), call)
      ensures selected == old(selected) + SelectionStep(Pipe(), old(quadBlendMode), call)
    {
      ArrayCopy(mesh[index..index + TOTAL_STRIDE], quadData, 0);
      editorQuad.Load();
      assert editorQuad.Words() == mesh[index..index + TOTAL_STRIDE];
      RenderQuad();
    }

    /** `Maker.emit()`: derives the editor's geometry, renders it, then clears the editor for the next quad. */
    method Emit()
      requires Valid()
      modifies this`quadBlendMode, this`quadVertexConsumer, this`selected, this`rendered, this`buffered, quadData
      modifies editorQuad`isGeometryInvalid, editorQuad`nominalFace, editorQuad`faceNormal, editorQuad`shade
      ensures Valid()
      ensures rendered == old(rendered) + [RenderCall(Geometry(editorQuad.fmt, old(editorQuad.isGeometryInvalid), old(editorQuad.Words())), false)]
      ensures buffered == old(buffered) + Output(Pipe(), RenderCall(Geometry(editorQuad.fmt, old(editorQuad.isGeometryInvalid), old(editorQuad.Words())), false))
      ensures quadBlendMode == CacheStep(Pipe(), old(quadBlendMode), RenderCall(Geometry(editorQuad.fmt, old(editorQuad.isGeometryInvalid), old(editorQuad.Words())), false))
      ensures selected == old(selected) + SelectionStep(Pipe(), old(quadBlendMode), RenderCall(Geometry(editorQuad.fmt, old(editorQuad.isGeometryInvalid), old(editorQuad.Words())), false))
      ensures editorQuad.Words() == editorQuad.fmt.cleared && editorQuad.isGeometryInvalid && editorQuad.nominalFace == None
      ensures editorQuad.shade
    {
      editorQuad.ComputeGeometry();
      RenderQuad();
      editorQuad.Clear();
    }

    /** `getEmitter()`: the editor quad, cleared. */
    method GetEmitter() returns (emitter: QuadView)
      requires Valid()
      modifies editorQuad`isGeometryInvalid, editorQuad`nominalFace, editorQuad`shade, quadData
      ensures Valid() && emitter == editorQuad
      ensures emitter.Words() == emitter.fmt.cleared && emitter.isGeometryInvalid && emitter.nominalFace == None
      ensures emitter.shade
    {
      editorQuad.Clear();
      emitter := editorQuad;
    }

    /** One pass of the `renderFallbackWithTransform` loop: the vanilla quad converted into the editor and rendered. */
    method RenderVanilla(q: BakedQuad, cullFace: Option<Face>)
      requires Valid()
      modifies this`quadBlendMode, this`quadVertexConsumer, this`selected, this`rendered, this`buffered, quadData
      modifies editorQuad`isGeometryInvalid, editorQuad`nominalFace, editorQuad`shade
      ensures Valid()
      ensures Pipe() == old(Pipe())
      ensures rendered == old(rendered) + [RenderCall(editorQuad.fmt.fromVanilla(q, cullFace), true)]
      ensures buffered == old(buffered) + Output(Pipe(), RenderCall(editorQuad.fmt.fromVanilla(q, cullFace), true))
      ensures quadBlendMode == CacheStep(Pipe(), old(quadBlendMode), RenderCall(editorQuad.fmt.fromVanilla(q, cullFace), true))
      ensures selected == old(selected) + SelectionStep(Pipe(), old(quadBlendMode), RenderCall(editorQuad.fmt.fromVanilla(q, cullFace), true))
    {
      editorQuad.FromVanilla(q, cullFace);
      RenderQuad();
    }

    /** `renderFallbackWithTransform`: each vanilla quad, in list order, converted into the editor and rendered. */
    method RenderFallbackWithTransform(quads: seq<BakedQuad>, cullFace: Option<Face>)
      requires Valid()
      modifies this`quadBlendMode, this`quadVertexConsumer, this`selected, this`rendered, this`buffered, quadData
      modifies editorQuad`isGeometryInvalid, editorQuad`nominalFace, editorQuad`shade
      ensures Valid() && Pipe() == old(Pipe())
      ensures rendered == old(rendered) + VanillaCalls(editorQuad.fmt, quads, cullFace)
      ensures buffered == old(buffered) + Outputs(Pipe(), VanillaCalls(editorQuad.fmt, quads, cullFace))
      ensures quadBlendMode == CacheAfter(Pipe(), old(quadBlendMode), VanillaCalls(editorQuad.fmt, quads, cullFace))
      ensures selected == old(selected) + Selections(Pipe(), old(quadBlendMode), VanillaCalls(editorQuad.fmt, quads, cullFace))
    {
      if |quads| == 0 {
        return;
      }
      ghost var p := Pipe();
      ghost var r0, b0, s0, cached := rendered, buffered, selected, quadBlendMode;
      for k := 0 to |quads|
        invariant Valid() && Pipe() == p
        invariant RunLogs(p, r0, b0, s0, cached, VanillaCalls(p.fmt, quads[..k], cullFace), rendered, buffered, selected, quadBlendMode)
      {
        RunLogsSnoc(p, r0, b0, s0, cached, VanillaCalls(p.fmt, quads[..k], cullFace),
                    rendered, buffered, selected, quadBlendMode, RenderCall(p.fmt.fromVanilla(quads[k], cullFace), true));
        RenderVanilla(quads[k], cullFace);
        VanillaCallsStep(p.fmt, quads, k, cullFace);
      }
      assert quads[..|quads|] == quads;
    }

    /** The transformed branch of `fallbackConsumer`: the model's quads for face ids 0 to `NULL_FACE_ID`, in that order. */
    method RenderFacesWithTransform(model: BakedModel)
      requires Valid()
      modifies this`quadBlendMode, this`quadVertexConsumer, this`selected, this`rendered, this`buffered, quadData
      modifies editorQuad`isGeometryInvalid, editorQuad`nominalFace, editorQuad`shade
      ensures Valid() && Pipe() == old(Pipe())
      ensures rendered == old(rendered) + FallbackCalls(editorQuad.fmt, model, NULL_FACE_ID + 1)
      ensures buffered == old(buffered) + Outputs(Pipe(), FallbackCalls(editorQuad.fmt, model, NULL_FACE_ID + 1))
      ensures quadBlendMode == CacheAfter(Pipe(), old(quadBlendMode), FallbackCalls(editorQuad.fmt, model, NULL_FACE_ID + 1))
      ensures selected == old(selected) + Selections(Pipe(), old(quadBlendMode), FallbackCalls(editorQuad.fmt, model, NULL_FACE_ID + 1))
    {
      ghost var p := Pipe();
      ghost var r0, b0, s0, cached := rendered, buffered, selected, quadBlendMode;
      for i := 0 to NULL_FACE_ID + 1
        invariant Valid() && Pipe() == p
        invariant RunLogs(p, r0, b0, s0, cached, FallbackCalls(p.fmt, model, i), rendered, buffered, selected, quadBlendMode)
      {
        // The source reseeds the model's random source here; quads are a function of the face.
        var cullFace := FaceFromIndex(i);
        ghost var face := VanillaCalls(p.fmt, model.quads(cullFace), cullFace);
        RunLogsAppend(p, r0, b0, s0, cached, FallbackCalls(p.fmt, model, i), rendered, buffered, selected, quadBlendMode, face);
        RenderFallbackWithTransform(model.quads(cullFace), cullFace);
        FallbackCallsStep(p.fmt, model, i);
      }
    }

    /**
     * `fallbackConsumer(model)`: without a transform, one call to the vanilla
     * handler and nothing rendered here; with one, every quad of the model for
     * face ids 0 to `NULL_FACE_ID`, in that order, through `renderQuad`.
     */
    method FallbackConsumer(model: BakedModel)
      requires Valid()
      modifies this`quadBlendMode, this`quadVertexConsumer, this`selected, this`rendered, this`buffered, this`vanillaCalls, quadData
      modifies editorQuad`isGeometryInvalid, editorQuad`nominalFace, editorQuad`shade
      ensures Valid() && Pipe() == old(Pipe())
      ensures !hasTransform ==>
                vanillaCalls == old(vanillaCalls) + [model.id] && rendered == old(rendered) && buffered == old(buffered) &&
                quadBlendMode == old(quadBlendMode) && selected == old(selected)
      ensures !hasTransform ==>
                quadData[..] == old(quadData[..]) && quadVertexConsumer == old(quadVertexConsumer) &&
                editorQuad.isGeometryInvalid == old(editorQuad.isGeometryInvalid) &&
                editorQuad.nominalFace == old(editorQuad.nominalFace) && editorQuad.shade == old(editorQuad.shade)
      ensures hasTransform ==>
                vanillaCalls == old(vanillaCalls) &&
                rendered == old(rendered) + FallbackCalls(editorQuad.fmt, model, NULL_FACE_ID + 1) &&
                buffered == old(buffered) + Outputs(Pipe(), FallbackCalls(editorQuad.fmt, model, NULL_FACE_ID + 1)) &&
                quadBlendMode == CacheAfter(Pipe(), old(quadBlendMode), FallbackCalls(editorQuad.fmt, model, NULL_FACE_ID + 1)) &&
                selected == old(selected) + Selections(Pipe(), old(quadBlendMode), FallbackCalls(editorQuad.fmt, model, NULL_FACE_ID + 1))
    {
      if hasTransform {
        RenderFacesWithTransform(model);
      } else {
        // vanillaHandler.accept(model, ...): the host renders the model itself.
        vanillaCalls := vanillaCalls + [model.id];
      }
    }
  }
}
