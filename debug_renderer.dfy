/**
  The debug-text overlay (DebugRenderer.cpp): glyph quads are appended to
  per-(bold, italic, texture) batches, the batches are uploaded into one
  vertex buffer clamped to its capacity, and drawn as consecutive vertex
  ranges, after which every batch is cleared for the next frame.

  Vertices are values (positions, texture coordinates and colours as reals);
  fonts, textures, descriptor sets and GPU buffers are opaque handles.
 */
module DebugText {
  import opened Wrappers
  import opened Bits
  import opened Scene
  import opened Gfx

  const DEBUG_FONT_SIZE: nat := 10
  const DEBUG_MAX_CHARACTERS: nat := 10000
  const DEBUG_VERTICES_PER_CHAR: nat := 6
  const DEBUG_FONT_COUNT: nat := 4

  const CARRIAGE_RETURN: nat := 13
  const LINE_FEED: nat := 10

  // ----- Font index -----

  /** The font slot of a style: bit 0 is bold, bit 1 is italic. */
  function FontIndex(bold: bool, italic: bool): (r: nat)
    ensures r == (if bold then 1 else 0) + (if italic then 2 else 0)
  {
    var index := 0;
    var index1 := BitOr(index, if bold then 1 else 0);
    BitOr(index1, if italic then 2 else 0)
  }

  /** The index is one of the four font slots, and each bit reads back its flag. */
  lemma FontIndexBits(bold: bool, italic: bool)
    ensures FontIndex(bold, italic) < DEBUG_FONT_COUNT
    ensures FontIndex(bold, italic) % 2 == 1 <==> bold
    ensures FontIndex(bold, italic) / 2 == 1 <==> italic
  {
    assert BitOr(1, 2) == 2 * BitOr(0, 1) + 1;
  }

  /** The four styles get four different slots. */
  lemma FontIndexInjective(b1: bool, i1: bool, b2: bool, i2: bool)
    requires FontIndex(b1, i1) == FontIndex(b2, i2)
    ensures b1 == b2 && i1 == i2
  {
    FontIndexBits(b1, i1);
    FontIndexBits(b2, i2);
  }

  // ----- Vertices and quads -----

  datatype Vec2 = Vec2(x: real, y: real)
  datatype Vec4 = Vec4(x: real, y: real, z: real, w: real)
  datatype Color = Color(r: real, g: real, b: real, a: real)
  datatype DebugVertex = DebugVertex(position: Vec2, uv: Vec2, color: Color)

  /**
    The six vertices of a quad: corners 0 (top-left), 1 (right), 2 (below) and
    3 (opposite) of `rect`, with the matching corners of `uv`, as the two
    triangles (0, 1, 2) and (1, 3, 2).
   */
  function QuadVertices(rect: Vec4, uv: Vec4, color: Color): (vs: seq<DebugVertex>)
    ensures |vs| == 6
  {
    var q0 := DebugVertex(Vec2(rect.x, rect.y), Vec2(uv.x, uv.y), color);
    var q1 := DebugVertex(Vec2(rect.x + rect.z, rect.y), Vec2(uv.x + uv.z, uv.y), color);
    var q2 := DebugVertex(Vec2(rect.x, rect.y + rect.w), Vec2(uv.x, uv.y + uv.w), color);
    var q3 := DebugVertex(Vec2(rect.x + rect.z, rect.y + rect.w), Vec2(uv.x + uv.z, uv.y + uv.w), color);
    [q0, q1, q2, q1, q3, q2]
  }

  /** Twice the signed area of the triangle (a, b, c). */
  function Cross(a: Vec2, b: Vec2, c: Vec2): real {
    (b.x - a.x) * (c.y - a.y) - (b.y - a.y) * (c.x - a.x)
  }

  /**
    The two triangles of a quad share the edge 1-2 and have the same
    winding: each has signed area width times height over two.
   */
  lemma QuadWinding(rect: Vec4, uv: Vec4, color: Color)
    ensures var vs := QuadVertices(rect, uv, color);
            vs[3] == vs[1] && vs[5] == vs[2] &&
            Cross(vs[0].position, vs[1].position, vs[2].position) == rect.z * rect.w &&
            Cross(vs[3].position, vs[4].position, vs[5].position) == rect.z * rect.w
  {
    var vs := QuadVertices(rect, uv, color);
    var a, b, c := vs[3].position, vs[4].position, vs[5].position;
    assert b.x - a.x == 0.0 && c.y - a.y == rect.w && b.y - a.y == rect.w && c.x - a.x == -rect.z;
    assert Cross(a, b, c) == 0.0 * rect.w - rect.w * (-rect.z);
  }

  /** Together the two triangles touch exactly the four corners of the rectangle. */
  lemma QuadCorners(rect: Vec4, uv: Vec4, color: Color)
    ensures (set v <- QuadVertices(rect, uv, color) :: v.position) ==
              {Vec2(rect.x, rect.y), Vec2(rect.x + rect.z, rect.y), Vec2(rect.x, rect.y + rect.w), Vec2(rect.x + rect.z, rect.y + rect.w)}
  {
    var vs := QuadVertices(rect, uv, color);
    assert (set v <- vs :: v.position) == {vs[0].position, vs[1].position, vs[2].position, vs[4].position};
  }

  /**
    Every vertex has the quad's colour, and its texture coordinates sit at
    the same relative place in the texture rectangle as its position in
    the screen rectangle.
   */
  lemma QuadTexturing(rect: Vec4, uv: Vec4, color: Color)
    ensures forall v <- QuadVertices(rect, uv, color) :: v.color == color &&
              (v.position.x - rect.x) * uv.z == (v.uv.x - uv.x) * rect.z &&
              (v.position.y - rect.y) * uv.w == (v.uv.y - uv.y) * rect.w
  {
  }

  /** Shadow quad (x, y): the glyph quad shifted right by x and down by y. */
  function ShadowQuad(rect: Vec4, uv: Vec4, color: Color, x: nat, y: nat): seq<DebugVertex> {
    QuadVertices(Vec4(rect.x + x as real, rect.y + y as real, rect.z, rect.w), uv, color)
  }

  /** The quads of shadow row `x`: (x, 1) to (x, n), in that order. */
  function ShadowRow(rect: Vec4, uv: Vec4, color: Color, x: nat, n: nat): seq<DebugVertex>
  {
    if n == 0 then [] else ShadowRow(rect, uv, color, x, n - 1) + ShadowQuad(rect, uv, color, x, n)
  }

  /** The shadow rows 1 to m, each of `thickness` quads. */
  function ShadowVertices(rect: Vec4, uv: Vec4, thickness: nat, color: Color, m: nat): seq<DebugVertex>
  {
    if m == 0 then []
    else ShadowVertices(rect, uv, thickness, color, m - 1) + ShadowRow(rect, uv, color, m, thickness)
  }

  /**
    The counter of the shadow loops as the code declares it: a uint32 `x`
    that starts at 1 and is incremented once per row, so after `n` rows it
    holds (1 + n) mod 2^32.
   */
  function ShadowCounterAsWritten(n: nat): nat {
    ToU32(1 + n)
  }

  /**
    As written, a thickness below 2^32 - 1 keeps the guard `x <= thickness`
    true for rows 0 to thickness - 1 and ends the loop at row `thickness`;
    a thickness of 2^32 - 1 (`UINT32_MAX`) keeps the guard true after every
    number of rows, so the loop never ends.
   */
  lemma ShadowLoopAsWritten(thickness: nat, n: nat)
    requires thickness < U32_MODULUS
    ensures thickness < U32_MODULUS - 1 && n <= thickness ==> (ShadowCounterAsWritten(n) <= thickness <==> n < thickness)
    ensures thickness == U32_MODULUS - 1 ==> ShadowCounterAsWritten(n) <= thickness
  {
  }

  /**
    The rows the outer shadow loop runs as written, from counter value `x`,
    within at most `fuel` rows: while `x <= thickness` it draws a row and
    steps the uint32 counter.
   */
  function ShadowRowsAsWritten(thickness: nat, x: nat, fuel: nat): (r: nat)
    ensures r <= fuel
    decreases fuel
  {
    if fuel == 0 || x > thickness then 0
    else 1 + ShadowRowsAsWritten(thickness, ToU32(x + 1), fuel - 1)
  }

  /** Below 2^32 - 1 the loop from `x` stops by itself after the rows x to thickness. */
  lemma {:induction false} ShadowRowsAsWrittenEnd(thickness: nat, x: nat, fuel: nat)
    requires thickness < U32_MODULUS - 1 && 1 <= x <= thickness + 1 && fuel >= thickness + 1 - x
    ensures ShadowRowsAsWritten(thickness, x, fuel) == thickness + 1 - x
    decreases fuel
  {
    if x <= thickness {
      assert ToU32(x + 1) == x + 1;
      ShadowRowsAsWrittenEnd(thickness, x + 1, fuel - 1);
    }
  }

  /** At 2^32 - 1 the loop uses up any fuel it is given: it never stops by itself. */
  lemma {:induction false} ShadowRowsAsWrittenForever(x: nat, fuel: nat)
    requires x < U32_MODULUS
    ensures ShadowRowsAsWritten(U32_MODULUS - 1, x, fuel) == fuel
    decreases fuel
  {
    if fuel > 0 {
      ShadowRowsAsWrittenForever(ToU32(x + 1), fuel - 1);
    }
  }

  /** Row x holds n quads of six vertices, quad (x, y) at offset 6 * (y - 1). */
  lemma {:induction false} RowShape(rect: Vec4, uv: Vec4, color: Color, x: nat, n: nat)
    ensures |ShadowRow(rect, uv, color, x, n)| == DEBUG_VERTICES_PER_CHAR * n
    ensures forall y :: 1 <= y <= n ==>
              ShadowRow(rect, uv, color, x, n)[DEBUG_VERTICES_PER_CHAR * (y - 1)..DEBUG_VERTICES_PER_CHAR * y] ==
                ShadowQuad(rect, uv, color, x, y)
  {
    if n > 0 {
      RowShape(rect, uv, color, x, n - 1);
      var prev := ShadowRow(rect, uv, color, x, n - 1);
      var q := ShadowQuad(rect, uv, color, x, n);
      forall y | 1 <= y <= n
        ensures (prev + q)[DEBUG_VERTICES_PER_CHAR * (y - 1)..DEBUG_VERTICES_PER_CHAR * y] == ShadowQuad(rect, uv, color, x, y)
      {
        if y < n {
          assert (prev + q)[DEBUG_VERTICES_PER_CHAR * (y - 1)..DEBUG_VERTICES_PER_CHAR * y] ==
                 prev[DEBUG_VERTICES_PER_CHAR * (y - 1)..DEBUG_VERTICES_PER_CHAR * y];
        } else {
          assert (prev + q)[DEBUG_VERTICES_PER_CHAR * (y - 1)..DEBUG_VERTICES_PER_CHAR * y] == q;
        }
      }
    }
  }

  /** A shadow of thickness t over m rows holds m * t quads of six vertices. */
  lemma {:induction false} ShadowLength(rect: Vec4, uv: Vec4, thickness: nat, color: Color, m: nat)
    ensures |ShadowVertices(rect, uv, thickness, color, m)| == DEBUG_VERTICES_PER_CHAR * (thickness * m)
  {
    if m > 0 {
      ShadowLength(rect, uv, thickness, color, m - 1);
      RowShape(rect, uv, color, m, thickness);
      assert thickness * (m - 1) + thickness == thickness * m;
    }
  }

  // ----- Batches -----

  /** A batch of vertices drawn with one texture; its style and texture never change. */
  class DebugBatch {
    var vertices: seq<DebugVertex>
    const bold: bool
    const italic: bool
    const texture: nat
    const descriptorSet: nat

    constructor (bold: bool, italic: bool, texture: nat, descriptorSet: nat)
      ensures vertices == []
      ensures this.bold == bold && this.italic == italic && this.texture == texture
      ensures this.descriptorSet == descriptorSet
    {
      vertices := [];
      this.bold := bold;
      this.italic := italic;
      this.texture := texture;
      this.descriptorSet := descriptorSet;
    }

    /** The batch holds glyphs of this style and texture. */
    predicate Match(b: bool, i: bool, tex: nat) {
      bold == b && italic == i && texture == tex
    }

    /** The key the batch is found by. */
    function Key(): BatchKey {
      BatchKey(bold, italic, texture)
    }
  }

  /** What a batch is found by: its style and its atlas texture. */
  datatype BatchKey = BatchKey(bold: bool, italic: bool, texture: nat)

  /** The index of the first key of `keys` equal to `key`, if any. */
  function FirstKey(keys: seq<BatchKey>, key: BatchKey): (r: Option<nat>)
    ensures r.Some? ==> r.value < |keys| && keys[r.value] == key && forall j :: 0 <= j < r.value ==> keys[j] != key
    ensures r.None? ==> forall j :: 0 <= j < |keys| ==> keys[j] != key
    decreases |keys|
  {
    if keys == [] then None
    else if keys[0] == key then Some(0)
    else match FirstKey(keys[1..], key)
         case None => None
         case Some(k) => Some(k + 1)
  }

  /** The keys of the batches, in list order. */
  function KeysOf(bs: seq<DebugBatch>): (ks: seq<BatchKey>)
    ensures |ks| == |bs| && forall i :: 0 <= i < |bs| ==> ks[i] == bs[i].Key()
  {
    seq(|bs|, i requires 0 <= i < |bs| => bs[i].Key())
  }

  /** The index of the first batch of `bs` that matches the key, if any. */
  function FirstMatch(bs: seq<DebugBatch>, bold: bool, italic: bool, texture: nat): (r: Option<nat>)
    ensures r.Some? ==> r.value < |bs| && bs[r.value].Match(bold, italic, texture) &&
                        forall j :: 0 <= j < r.value ==> !bs[j].Match(bold, italic, texture)
    ensures r.None? ==> forall j :: 0 <= j < |bs| ==> !bs[j].Match(bold, italic, texture)
  {
    FirstKey(KeysOf(bs), BatchKey(bold, italic, texture))
  }

  /** No two batches share a key. */
  predicate UniqueKeys(bs: seq<DebugBatch>) {
    forall i, j :: 0 <= i < j < |bs| ==> !bs[j].Match(bs[i].bold, bs[i].italic, bs[i].texture)
  }

  /** A batch whose key no batch of `bs` has can be appended without breaking unique keys. */
  lemma UniqueKeysSnoc(bs: seq<DebugBatch>, nb: DebugBatch)
    requires UniqueKeys(bs)
    requires forall j :: 0 <= j < |bs| ==> !bs[j].Match(nb.bold, nb.italic, nb.texture)
    ensures UniqueKeys(bs + [nb])
  {
    var r := bs + [nb];
    forall i, j | 0 <= i < j < |r|
      ensures !r[j].Match(r[i].bold, r[i].italic, r[i].texture)
    {
      if j == |bs| {
        assert !bs[i].Match(nb.bold, nb.italic, nb.texture);
      } else {
        assert r[i] == bs[i] && r[j] == bs[j];
      }
    }
  }

  /** With unique keys the batches are distinct objects. */
  lemma UniqueKeysDistinct(bs: seq<DebugBatch>, i: nat, j: nat)
    requires UniqueKeys(bs) && i < |bs| && j < |bs| && i != j
    ensures bs[i] != bs[j]
  {
    if i < j {
      assert !bs[j].Match(bs[i].bold, bs[i].italic, bs[i].texture);
    } else {
      assert !bs[i].Match(bs[j].bold, bs[j].italic, bs[j].texture);
    }
  }

  // ----- Contents, uploads and draw ranges as values -----

  /** All vertices of the batches, batch after batch. */
  function Concat(vss: seq<seq<DebugVertex>>): seq<DebugVertex>
    decreases |vss|
  {
    if vss == [] then [] else Concat(vss[..|vss| - 1]) + vss[|vss| - 1]
  }

  /** No batch holds a vertex. */
  predicate AllEmpty(vss: seq<seq<DebugVertex>>) {
    forall i :: 0 <= i < |vss| ==> vss[i] == []
  }

  /** Empty batches contribute nothing: all are empty exactly when their concatenation is. */
  lemma {:induction false} AllEmptyConcat(vss: seq<seq<DebugVertex>>)
    ensures AllEmpty(vss) <==> Concat(vss) == []
    decreases |vss|
  {
    if vss != [] {
      AllEmptyConcat(vss[..|vss| - 1]);
      assert AllEmpty(vss) ==> AllEmpty(vss[..|vss| - 1]);
      if AllEmpty(vss[..|vss| - 1]) && vss[|vss| - 1] == [] {
        forall i | 0 <= i < |vss|
          ensures vss[i] == []
        {
          if i < |vss| - 1 {
            assert vss[..|vss| - 1][i] == vss[i];
          }
        }
      }
    }
  }

  function Min(a: nat, b: nat): nat {
    if a <= b then a else b
  }

  /** What `update` uploads: the concatenation, cut to min(its uint32 size, capacity). */
  function UploadOf(vss: seq<seq<DebugVertex>>, maxVertices: nat): seq<DebugVertex> {
    var all := Concat(vss);
    all[..Min(ToU32(|all|), maxVertices)]
  }

  /**
    The upload is a prefix of the concatenation no longer than the
    capacity; when the vertex count fits in 32 bits it is exactly
    min(count, capacity) long.
   */
  lemma UploadClamp(vss: seq<seq<DebugVertex>>, maxVertices: nat)
    ensures |UploadOf(vss, maxVertices)| <= maxVertices
    ensures UploadOf(vss, maxVertices) == Concat(vss)[..|UploadOf(vss, maxVertices)|]
    ensures |Concat(vss)| < U32_MODULUS ==> |UploadOf(vss, maxVertices)| == Min(|Concat(vss)|, maxVertices)
  {
  }

  /** What a batch contributes to drawing: its descriptor set and its vertex count. */
  datatype BatchInfo = BatchInfo(descriptorSet: nat, size: nat)

  /** One draw: the batch's descriptor set and the vertices [firstVertex, firstVertex + vertexCount). */
  datatype Range = Range(descriptorSet: nat, firstVertex: nat, vertexCount: nat)

  /**
    The ranges `render` draws from `offset` on: each batch gets
    min(uint32 size, capacity - offset) vertices, and the walk stops at the
    first batch that gets none.
   */
  function Ranges(infos: seq<BatchInfo>, maxVertices: nat, offset: nat): (rs: seq<Range>)
    requires offset <= maxVertices
    ensures |rs| <= |infos|
    decreases |infos|
  {
    if infos == [] then []
    else
      var count := Min(ToU32(infos[0].size), maxVertices - offset);
      if count == 0 then []
      else [Range(infos[0].descriptorSet, offset, count)] + Ranges(infos[1..], maxVertices, offset + count)
  }

  /** The commands of the ranges: bind the batch's material set, then draw its range. */
  function RangeCommands(rs: seq<Range>): seq<Command>
    decreases |rs|
  {
    if rs == [] then []
    else [Command.BindDescriptorSet(MaterialSet, Binding(rs[0].descriptorSet, [])),
          Command.DrawRange(rs[0].firstVertex, rs[0].vertexCount)] + RangeCommands(rs[1..])
  }

  /** One step of the walk from batch `i`: it stops when the batch gets no vertices, else draws them and goes on. */
  lemma RangesStep(infos: seq<BatchInfo>, i: nat, maxVertices: nat, offset: nat)
    requires i < |infos| && offset <= maxVertices
    ensures var count := Min(ToU32(infos[i].size), maxVertices - offset);
            (count == 0 ==> Ranges(infos[i..], maxVertices, offset) == []) &&
            (count != 0 ==>
               RangeCommands(Ranges(infos[i..], maxVertices, offset)) ==
               [Command.BindDescriptorSet(MaterialSet, Binding(infos[i].descriptorSet, [])),
                Command.DrawRange(offset, count)] +
               RangeCommands(Ranges(infos[i + 1..], maxVertices, offset + count)))
  {
    assert infos[i..][0] == infos[i] && infos[i..][1..] == infos[i + 1..];
  }

  /** A recorded step of the walk from batch `i` moves the walk on to batch `i + 1`. */
  lemma RangesAdvance(goal: seq<Command>, before: seq<Command>, after: seq<Command>,
                      infos: seq<BatchInfo>, i: nat, maxVertices: nat, offset: nat, count: nat)
    requires i < |infos| && offset <= maxVertices
    requires count == Min(ToU32(infos[i].size), maxVertices - offset) && count != 0
    requires before + RangeCommands(Ranges(infos[i..], maxVertices, offset)) == goal
    requires after == before + [Command.BindDescriptorSet(MaterialSet, Binding(infos[i].descriptorSet, [])),
                                Command.DrawRange(offset, count)]
    ensures after + RangeCommands(Ranges(infos[i + 1..], maxVertices, offset + count)) == goal
  {
    RangesStep(infos, i, maxVertices, offset);
  }

  /** The sum of the first `n` sizes. */
  function SizeSum(infos: seq<BatchInfo>, n: nat): nat
    requires n <= |infos|
  {
    if n == 0 then 0 else SizeSum(infos, n - 1) + infos[n - 1].size
  }

  /** Where the last range ends (`offset` when there is none). */
  function RangesEnd(rs: seq<Range>, offset: nat): nat {
    if rs == [] then offset else rs[|rs| - 1].firstVertex + rs[|rs| - 1].vertexCount
  }

  /**
    Range k is batch k's: it has the batch's descriptor set, starts at or
    below the capacity (the first at `offset`), draws
    min(uint32 size, capacity - start) > 0 vertices without passing the
    capacity, and the next range starts where it ends.
   */
  lemma {:induction false} RangeAt(infos: seq<BatchInfo>, maxVertices: nat, offset: nat, k: nat)
    requires offset <= maxVertices && k < |Ranges(infos, maxVertices, offset)|
    ensures var rs := Ranges(infos, maxVertices, offset);
            rs[k].descriptorSet == infos[k].descriptorSet &&
            rs[k].firstVertex <= maxVertices &&
            rs[k].vertexCount == Min(ToU32(infos[k].size), maxVertices - rs[k].firstVertex) &&
            0 < rs[k].vertexCount && rs[k].firstVertex + rs[k].vertexCount <= maxVertices &&
            (k == 0 ==> rs[k].firstVertex == offset) &&
            (k + 1 < |rs| ==> rs[k + 1].firstVertex == rs[k].firstVertex + rs[k].vertexCount)
    decreases |infos|
  {
    var count := Min(ToU32(infos[0].size), maxVertices - offset);
    var rest := Ranges(infos[1..], maxVertices, offset + count);
    assert Ranges(infos, maxVertices, offset) == [Range(infos[0].descriptorSet, offset, count)] + rest;
    if k > 0 {
      RangeAt(infos[1..], maxVertices, offset + count, k - 1);
    } else if rest != [] {
      RangeAt(infos[1..], maxVertices, offset + count, 0);
    }
  }

  /**
    The walk stops exactly where a batch would get no vertices: when it
    ends before the last batch, the next batch gets
    min(uint32 size, capacity - end) = 0, however many batches follow.
   */
  lemma {:induction false} RangesStop(infos: seq<BatchInfo>, maxVertices: nat, offset: nat)
    requires offset <= maxVertices
    ensures var rs := Ranges(infos, maxVertices, offset);
            RangesEnd(rs, offset) <= maxVertices &&
            (|rs| < |infos| ==> Min(ToU32(infos[|rs|].size), maxVertices - RangesEnd(rs, offset)) == 0)
    decreases |infos|
  {
    if infos != [] {
      var count := Min(ToU32(infos[0].size), maxVertices - offset);
      if count != 0 {
        var rest := Ranges(infos[1..], maxVertices, offset + count);
        RangesStop(infos[1..], maxVertices, offset + count);
        assert Ranges(infos, maxVertices, offset) == [Range(infos[0].descriptorSet, offset, count)] + rest;
        assert RangesEnd(Ranges(infos, maxVertices, offset), offset) == RangesEnd(rest, offset + count);
      }
    }
  }

  /** A batch with no vertices stops the walk even when later batches hold vertices. */
  lemma EmptyBatchStopsRanges(first: BatchInfo, later: seq<BatchInfo>, maxVertices: nat)
    requires first.size == 0
    ensures Ranges([first] + later, maxVertices, 0) == []
  {
  }

  /**
    When the sizes fit in 32 bits, every range but possibly the last draws
    its whole batch, so range k starts at the sum of the sizes before
    batch k, counted from `offset`.
   */
  lemma {:induction false} RangesStartAtPrefixSums(infos: seq<BatchInfo>, maxVertices: nat, offset: nat, k: nat)
    requires offset <= maxVertices
    requires forall i :: 0 <= i < |infos| ==> infos[i].size < U32_MODULUS
    requires k < |Ranges(infos, maxVertices, offset)|
    ensures Ranges(infos, maxVertices, offset)[k].firstVertex == offset + SizeSum(infos, k)
    ensures Ranges(infos, maxVertices, offset)[k].vertexCount <= infos[k].size
    decreases |infos|
  {
    var count := Min(ToU32(infos[0].size), maxVertices - offset);
    var rest := Ranges(infos[1..], maxVertices, offset + count);
    assert Ranges(infos, maxVertices, offset) == [Range(infos[0].descriptorSet, offset, count)] + rest;
    if k > 0 {
      RangesStartAtPrefixSums(infos[1..], maxVertices, offset + count, k - 1);
      // a next range exists, so capacity was left after the first batch: it was drawn whole
      RangeAt(infos[1..], maxVertices, offset + count, 0);
      SizeSumShift(infos, k);
    }
  }

  /** Dropping the first size shifts the sums by that size. */
  lemma {:induction false} SizeSumShift(infos: seq<BatchInfo>, k: nat)
    requires 0 < k <= |infos|
    ensures SizeSum(infos, k) == infos[0].size + SizeSum(infos[1..], k - 1)
  {
    if k > 1 {
      SizeSumShift(infos, k - 1);
    }
  }

  /** The batches' descriptor sets and vertex counts. */
  function InfosOf(vss: seq<seq<DebugVertex>>, sets: seq<nat>): (r: seq<BatchInfo>)
    requires |vss| == |sets|
    ensures |r| == |vss| && forall i :: 0 <= i < |r| ==> r[i] == BatchInfo(sets[i], |vss[i]|)
  {
    seq(|vss|, i requires 0 <= i < |vss| => BatchInfo(sets[i], |vss[i]|))
  }

  /** Concatenation distributes over appending batch lists. */
  lemma {:induction false} ConcatAppend(a: seq<seq<DebugVertex>>, b: seq<seq<DebugVertex>>)
    ensures Concat(a + b) == Concat(a) + Concat(b)
    decreases |b|
  {
    if b == [] {
      assert a + b == a;
    } else {
      var b0 := b[..|b| - 1];
      assert (a + b)[..|a + b| - 1] == a + b0;
      ConcatAppend(a, b0);
    }
  }

  /** The first `k` batches hold as many vertices as the first `k` sizes say. */
  lemma {:induction false} PrefixConcatLength(vss: seq<seq<DebugVertex>>, sets: seq<nat>, k: nat)
    requires |vss| == |sets| && k <= |vss|
    ensures |Concat(vss[..k])| == SizeSum(InfosOf(vss, sets), k)
  {
    if k > 0 {
      PrefixConcatLength(vss, sets, k - 1);
      assert vss[..k][..k - 1] == vss[..k - 1];
    }
  }

  /** Batch k sits in the concatenation right after the first k batches. */
  lemma ConcatSplit(vss: seq<seq<DebugVertex>>, k: nat)
    requires k < |vss|
    ensures |Concat(vss[..k])| + |vss[k]| <= |Concat(vss)|
    ensures Concat(vss)[|Concat(vss[..k])|..|Concat(vss[..k])| + |vss[k]|] == vss[k]
  {
    assert vss == vss[..k] + ([vss[k]] + vss[k + 1..]);
    ConcatAppend(vss[..k], [vss[k]] + vss[k + 1..]);
    ConcatAppend([vss[k]], vss[k + 1..]);
    assert [vss[k]][..0] == [];
  }

  /**
    When every batch's size fits in 32 bits, each range draws, from the
    uploaded vertices, the first vertices of its own batch: the ranges and
    the upload agree.
   */
  lemma RangesMatchUpload(vss: seq<seq<DebugVertex>>, sets: seq<nat>, maxVertices: nat, k: nat)
    requires |vss| == |sets|
    requires |Concat(vss)| < U32_MODULUS
    requires k < |Ranges(InfosOf(vss, sets), maxVertices, 0)|
    ensures var r := Ranges(InfosOf(vss, sets), maxVertices, 0)[k];
            r.vertexCount <= |vss[k]| &&
            r.firstVertex + r.vertexCount <= |UploadOf(vss, maxVertices)| &&
            UploadOf(vss, maxVertices)[r.firstVertex..r.firstVertex + r.vertexCount] == vss[k][..r.vertexCount]
  {
    var infos := InfosOf(vss, sets);
    var r := Ranges(infos, maxVertices, 0)[k];
    var all := Concat(vss);
    BatchesWithinConcat(vss);
    RangesStartAtPrefixSums(infos, maxVertices, 0, k);
    RangeAt(infos, maxVertices, 0, k);
    PrefixConcatLength(vss, sets, k);
    ConcatSplit(vss, k);
    assert ToU32(|all|) == |all|;
    var n := Min(|all|, maxVertices);
    assert UploadOf(vss, maxVertices) == all[..n];
    assert r.firstVertex + r.vertexCount <= maxVertices;
    assert r.firstVertex + |vss[k]| <= |all|;
    SliceOfPrefix(all, n, r.firstVertex, |vss[k]|, r.vertexCount);
  }

  /** No batch holds more vertices than all batches together. */
  lemma BatchesWithinConcat(vss: seq<seq<DebugVertex>>)
    ensures forall i :: 0 <= i < |vss| ==> |vss[i]| <= |Concat(vss)|
  {
    forall i | 0 <= i < |vss|
      ensures |vss[i]| <= |Concat(vss)|
    {
      ConcatSplit(vss, i);
    }
  }

  /** A slice of a prefix, read inside a longer slice. */
  lemma SliceOfPrefix(all: seq<DebugVertex>, n: nat, first: nat, len: nat, count: nat)
    requires n <= |all| && first + count <= n && count <= len && first + len <= |all|
    ensures all[..n][first..first + count] == all[first..first + len][..count]
  {
  }

  // ----- The vertex buffer -----

  /** The shared vertex buffer: its capacity, its input assembler, the batch list and the last upload. */
  class DebugVertexBuffer {
    const maxVertices: nat
    const inputAssembler: nat
    var batches: seq<DebugBatch>
    var uploaded: seq<DebugVertex>

    /** The capacity is a uint32 and no two batches share a key. */
    ghost predicate Valid()
      reads this
    {
      maxVertices < U32_MODULUS && UniqueKeys(batches)
    }

    /** The vertices of each batch, in list order. */
    ghost function Contents(): (c: seq<seq<DebugVertex>>)
      reads this, batches
      ensures |c| == |batches| && forall i :: 0 <= i < |batches| ==> c[i] == batches[i].vertices
    {
      seq(|batches|, i reads this, batches requires 0 <= i < |batches| => batches[i].vertices)
    }

    /** The descriptor set of each batch, in list order. */
    ghost function Sets(): (s: seq<nat>)
      reads this
      ensures |s| == |batches| && forall i :: 0 <= i < |batches| ==> s[i] == batches[i].descriptorSet
    {
      seq(|batches|, i reads this requires 0 <= i < |batches| => batches[i].descriptorSet)
    }

    /** The batches as values, in list order. */
    ghost function View(): (v: seq<BatchState>)
      reads this, batches
      ensures |v| == |batches|
      ensures forall i :: 0 <= i < |batches| ==> v[i] == BatchState(batches[i].Key(), batches[i].descriptorSet, batches[i].vertices)
    {
      seq(|batches|, i reads this, batches requires 0 <= i < |batches| =>
        BatchState(batches[i].Key(), batches[i].descriptorSet, batches[i].vertices))
    }

    /** The keys and the vertices of the values are those of the batches. */
    lemma ViewAgrees()
      ensures StateKeys(View()) == KeysOf(batches)
      ensures StateVertices(View()) == Contents()
    {
    }

    /** `init`: a buffer for `maxVertices` vertices and its input assembler; no batches yet. */
    constructor (maxVertices: nat, inputAssembler: nat)
      requires maxVertices < U32_MODULUS
      ensures Valid() && batches == [] && uploaded == []
      ensures this.maxVertices == maxVertices && this.inputAssembler == inputAssembler
    {
      this.maxVertices := maxVertices;
      this.inputAssembler := inputAssembler;
      batches := [];
      uploaded := [];
    }

    /** True exactly when no batch holds a vertex; nothing changes. */
    method Empty() returns (r: bool)
      ensures r <==> AllEmpty(Contents())
    {
      var i := 0;
      while i < |batches|
        invariant 0 <= i <= |batches|
        invariant forall j :: 0 <= j < i ==> batches[j].vertices == []
      {
        if batches[i].vertices != [] {
          return false;
        }
        i := i + 1;
      }
      return true;
    }

    /** Clear every batch; the list, its order and every key stay as they were. */
    method Reset()
      modifies batches
      ensures forall i :: 0 <= i < |batches| ==> batches[i].vertices == []
    {
      var i := 0;
      while i < |batches|
        invariant 0 <= i <= |batches|
        invariant forall j :: 0 <= j < i ==> batches[j].vertices == []
      {
        batches[i].vertices := [];
        i := i + 1;
      }
    }

    /** The search loop of `getOrCreateBatch`: the index of the first batch matching the key. */
    method FindBatch(bold: bool, italic: bool, texture: nat) returns (r: Option<nat>)
      ensures r == FirstMatch(batches, bold, italic, texture)
    {
      var i := 0;
      while i < |batches|
        invariant 0 <= i <= |batches|
        invariant forall j :: 0 <= j < i ==> !batches[j].Match(bold, italic, texture)
      {
        if batches[i].Match(bold, italic, texture) {
          FirstMatchIs(batches, bold, italic, texture, i);
          return Some(i);
        }
        i := i + 1;
      }
      return None;
    }

    /**
      Return the first batch matching the key, leaving the list as it was;
      when there is none, append one new empty batch for the key (with the
      descriptor set the device creates for it) and return that.
     */
    method GetOrCreateBatch(bold: bool, italic: bool, texture: nat, createSet: nat -> nat) returns (batch: DebugBatch, ghost index: nat)
      requires Valid()
      modifies this
      ensures Valid() && uploaded == old(uploaded)
      ensures batch in batches && batch.Match(bold, italic, texture)
      ensures index < |batches| && batches[index] == batch
      ensures index == match old(FirstMatch(batches, bold, italic, texture)) case Some(j) => j case None => |old(batches)|
      ensures |Concat(Contents())| == old(|Concat(Contents())|)
      ensures forall x <- batches :: x in old(batches) || fresh(x)
      ensures old(FirstMatch(batches, bold, italic, texture)).Some? ==>
                batches == old(batches) && batch == batches[old(FirstMatch(batches, bold, italic, texture)).value]
      ensures old(FirstMatch(batches, bold, italic, texture)).None? ==>
                batches == old(batches) + [batch] && fresh(batch) && batch.vertices == [] &&
                batch.descriptorSet == createSet(texture)
      ensures View() ==
                if old(FirstMatch(batches, bold, italic, texture)).Some? then old(View())
                else old(View()) + [BatchState(BatchKey(bold, italic, texture), createSet(texture), [])]
    {
      var found := FindBatch(bold, italic, texture);
      if found.Some? {
        return batches[found.value], found.value;
      }
      index := |batches|;
      batch := AddBatch(bold, italic, texture, createSet(texture));
    }

    /** The creating half of `getOrCreateBatch`: append one new empty batch for a key no batch has. */
    method AddBatch(bold: bool, italic: bool, texture: nat, descriptorSet: nat) returns (batch: DebugBatch)
      requires Valid() && FirstMatch(batches, bold, italic, texture).None?
      modifies this
      ensures Valid() && uploaded == old(uploaded)
      ensures batches == old(batches) + [batch] && fresh(batch) && batch.vertices == []
      ensures batch.Match(bold, italic, texture) && batch.descriptorSet == descriptorSet
      ensures |Concat(Contents())| == old(|Concat(Contents())|)
      ensures View() == old(View()) + [BatchState(BatchKey(bold, italic, texture), descriptorSet, [])]
    {
      ghost var before := Contents();
      ghost var view := View();
      ghost var oldBatches := batches;
      batch := new DebugBatch(bold, italic, texture, descriptorSet);
      UniqueKeysSnoc(oldBatches, batch);
      batches := batches + [batch];
      assert Contents() == before + [[]];
      assert View() == view + [BatchState(BatchKey(bold, italic, texture), descriptorSet, [])];
      ConcatAddEmpty(before);
    }

    /**
      Upload nothing when every batch is empty; otherwise upload the
      concatenation of all batches' vertices in batch order, cut to
      min(its uint32 size, capacity).
     */
    method Update()
      modifies this
      ensures batches == old(batches)
      ensures AllEmpty(Contents()) ==> uploaded == old(uploaded)
      ensures !AllEmpty(Contents()) ==>
                uploaded == UploadOf(Contents(), maxVertices)
    {
      var e := Empty();
      if e {
        return;
      }
      var vertices: seq<DebugVertex> := [];
      var i := 0;
      while i < |batches|
        invariant 0 <= i <= |batches|
        invariant vertices == Concat(Contents()[..i])
      {
        assert Contents()[..i + 1][..i] == Contents()[..i];
        vertices := vertices + batches[i].vertices;
        i := i + 1;
      }
      assert Contents()[..i] == Contents();
      ghost var contents := Contents();
      var count := Min(ToU32(|vertices|), maxVertices);
      uploaded := vertices[..count];
      assert Contents() == contents;
    }
  }

  /** The first match is at `i` when batch `i` matches and none before it does. */
  lemma FirstMatchIs(bs: seq<DebugBatch>, bold: bool, italic: bool, texture: nat, i: nat)
    requires i < |bs| && bs[i].Match(bold, italic, texture)
    requires forall j :: 0 <= j < i ==> !bs[j].Match(bold, italic, texture)
    ensures FirstMatch(bs, bold, italic, texture) == Some(i)
  {
  }

  // ----- Text -----

  /** A glyph of a font face: its size, bearing, advance, atlas position and atlas page. */
  datatype Glyph = Glyph(width: nat, height: nat, bearingX: int, bearingY: int, advance: int, x: nat, y: nat, page: nat)

  /** A loaded font face: glyphs by code point, the texture of each atlas page, and the line height. */
  datatype FontFace = FontFace(glyphs: map<nat, Glyph>, pageTexture: nat -> nat, lineHeight: nat)

  /** One font slot: the face (absent when it failed to load) and the inverse atlas size. */
  datatype FontInfo = FontInfo(face: Option<FontFace>, invTextureSize: Vec2)

  /** The style of a text run. */
  datatype DebugTextInfo = DebugTextInfo(
    color: Color,
    bold: bool,
    italic: bool,
    shadow: bool,
    shadowThickness: nat,
    shadowColor: Color,
    scale: real)

  /**
    The vertices one code point adds: none for '\r', '\n' and a missing
    glyph, none for an empty glyph, else six per quad: the glyph's quad and,
    with a shadow, thickness-squared shadow quads.
   */
  function GlyphVertexCount(face: FontFace, code: nat, info: DebugTextInfo): nat {
    if code == CARRIAGE_RETURN || code == LINE_FEED || code !in face.glyphs then 0
    else
      var g := face.glyphs[code];
      if g.width > 0 && g.height > 0
      then DEBUG_VERTICES_PER_CHAR * ((if info.shadow then info.shadowThickness * info.shadowThickness else 0) + 1)
      else 0
  }

  /** The vertices a text adds: the sum over its code points. */
  function TextVertexCount(face: FontFace, text: seq<nat>, info: DebugTextInfo): nat
    decreases |text|
  {
    if text == [] then 0
    else TextVertexCount(face, text[..|text| - 1], info) + GlyphVertexCount(face, text[|text| - 1], info)
  }

  /** A text made only of line breaks and carriage returns adds no vertex. */
  lemma {:induction false} LineBreaksAddNothing(face: FontFace, text: seq<nat>, info: DebugTextInfo)
    requires forall c <- text :: c == CARRIAGE_RETURN || c == LINE_FEED
    ensures TextVertexCount(face, text, info) == 0
    decreases |text|
  {
    if text != [] {
      var init := text[..|text| - 1];
      forall c | c in init
        ensures c == CARRIAGE_RETURN || c == LINE_FEED
      {
        var j :| 0 <= j < |init| && init[j] == c;
        assert text[j] == c && text[j] in text;
      }
      LineBreaksAddNothing(face, init, info);
      assert text[|text| - 1] in text;
    }
  }

  /** The count over one more code point grows by that code point's count. */
  lemma TextVertexCountStep(face: FontFace, text: seq<nat>, i: nat, info: DebugTextInfo)
    requires i < |text|
    ensures TextVertexCount(face, text[..i + 1], info) == TextVertexCount(face, text[..i], info) + GlyphVertexCount(face, text[i], info)
  {
    assert text[..i + 1][..i] == text[..i];
  }

  /** The count of a concatenation is the sum of the counts. */
  lemma {:induction false} TextVertexCountAppend(face: FontFace, a: seq<nat>, b: seq<nat>, info: DebugTextInfo)
    ensures TextVertexCount(face, a + b, info) == TextVertexCount(face, a, info) + TextVertexCount(face, b, info)
    decreases |b|
  {
    if b == [] {
      assert a + b == a;
    } else {
      var b0 := b[..|b| - 1];
      assert (a + b)[..|a + b| - 1] == a + b0;
      TextVertexCountAppend(face, a, b0, info);
    }
  }

  /** Appending to one batch's vertices adds that many vertices to the whole. */
  lemma {:induction false} ConcatGrow(vss: seq<seq<DebugVertex>>, k: nat, extra: seq<DebugVertex>)
    requires k < |vss|
    ensures |Concat(vss[k := vss[k] + extra])| == |Concat(vss)| + |extra|
    decreases |vss|
  {
    var n := |vss|;
    var w := vss[k := vss[k] + extra];
    if k == n - 1 {
      assert w[..n - 1] == vss[..n - 1];
    } else {
      assert w[..n - 1] == vss[..n - 1][k := vss[k] + extra];
      ConcatGrow(vss[..n - 1], k, extra);
    }
  }

  lemma VertexAssoc(a: seq<DebugVertex>, b: seq<DebugVertex>, c: seq<DebugVertex>)
    ensures a + b + c == a + (b + c)
  {
  }

  /** A new empty batch adds no vertex. */
  lemma ConcatAddEmpty(vss: seq<seq<DebugVertex>>)
    ensures Concat(vss + [[]]) == Concat(vss)
  {
    assert (vss + [[]])[..|vss|] == vss;
  }

  // ----- Text layout as values -----

  /** A batch as a value: its key, its descriptor set and its vertices. */
  datatype BatchState = BatchState(key: BatchKey, descriptorSet: nat, vertices: seq<DebugVertex>)

  /** The keys of the batches, in list order. */
  function StateKeys(view: seq<BatchState>): (ks: seq<BatchKey>)
    ensures |ks| == |view| && forall i :: 0 <= i < |view| ==> ks[i] == view[i].key
  {
    seq(|view|, i requires 0 <= i < |view| => view[i].key)
  }

  /** The vertices of the batches, in list order. */
  function StateVertices(view: seq<BatchState>): (vss: seq<seq<DebugVertex>>)
    ensures |vss| == |view| && forall i :: 0 <= i < |view| ==> vss[i] == view[i].vertices
  {
    seq(|view|, i requires 0 <= i < |view| => view[i].vertices)
  }

  /** The vertex total of the batches. */
  function VertexTotal(view: seq<BatchState>): nat {
    |Concat(StateVertices(view))|
  }

  /**
    Every batch of `before` is still in place in `after`, with the same key
    and descriptor set, and its vertices are a prefix of its new vertices.
   */
  predicate Grows(before: seq<BatchState>, after: seq<BatchState>) {
    |before| <= |after| &&
    forall i :: 0 <= i < |before| ==>
      after[i].key == before[i].key && after[i].descriptorSet == before[i].descriptorSet &&
      before[i].vertices <= after[i].vertices
  }

  lemma GrowsTransitive(a: seq<BatchState>, b: seq<BatchState>, c: seq<BatchState>)
    requires Grows(a, b) && Grows(b, c)
    ensures Grows(a, c)
  {
    forall i | 0 <= i < |a|
      ensures a[i].vertices <= c[i].vertices
    {
      assert a[i].vertices == b[i].vertices[..|a[i].vertices|];
      assert b[i].vertices == c[i].vertices[..|b[i].vertices|];
    }
  }

  /** The vertices of one drawable glyph: its shadow quads when the style has a shadow, then its own quad. */
  function GlyphVertices(rect: Vec4, uv: Vec4, info: DebugTextInfo): (vs: seq<DebugVertex>)
    ensures |vs| == DEBUG_VERTICES_PER_CHAR * ((if info.shadow then info.shadowThickness * info.shadowThickness else 0) + 1)
  {
    ShadowLength(rect, uv, info.shadowThickness, info.shadowColor, info.shadowThickness);
    (if info.shadow then ShadowVertices(rect, uv, info.shadowThickness, info.shadowColor, info.shadowThickness) else []) +
    QuadVertices(rect, uv, info.color)
  }

  /**
    The batches after one drawable glyph of style `info` on atlas texture
    `texture`: the first batch with that key gains the glyph's vertices;
    when there is none, a batch for the key, with the descriptor set
    created for the texture, is appended holding them.
   */
  function AddGlyphTo(view: seq<BatchState>, texture: nat, rect: Vec4, uv: Vec4, info: DebugTextInfo,
                      createSet: nat -> nat): seq<BatchState>
  {
    var key := BatchKey(info.bold, info.italic, texture);
    var vs := GlyphVertices(rect, uv, info);
    match FirstKey(StateKeys(view), key)
    case Some(k) => view[k := view[k].(vertices := view[k].vertices + vs)]
    case None => view + [BatchState(key, createSet(texture), vs)]
  }

  /**
    One glyph goes to the first batch with its key, or to a new last batch
    when no batch has the key: that batch ends with the glyph's vertices,
    after the vertices it had, and every other batch stays as it was.
   */
  lemma AddGlyphToTarget(view: seq<BatchState>, texture: nat, rect: Vec4, uv: Vec4, info: DebugTextInfo, createSet: nat -> nat)
    ensures var r := AddGlyphTo(view, texture, rect, uv, info, createSet);
            var key := BatchKey(info.bold, info.italic, texture);
            var found := FirstKey(StateKeys(r), key);
            found.Some? &&
            (found.value < |view| ==>
               FirstKey(StateKeys(view), key) == found && |r| == |view| &&
               r[found.value].vertices == view[found.value].vertices + GlyphVertices(rect, uv, info)) &&
            (found.value == |view| ==>
               FirstKey(StateKeys(view), key).None? && |r| == |view| + 1 &&
               r[found.value] == BatchState(key, createSet(texture), GlyphVertices(rect, uv, info))) &&
            found.value <= |view| &&
            forall i :: 0 <= i < |view| && i != found.value ==> r[i] == view[i]
  {
    var r := AddGlyphTo(view, texture, rect, uv, info, createSet);
    var key := BatchKey(info.bold, info.italic, texture);
    match FirstKey(StateKeys(view), key)
    case Some(k) =>
      assert StateKeys(r) == StateKeys(view);
    case None =>
      assert forall j :: 0 <= j < |view| ==> StateKeys(r)[j] != key;
      assert StateKeys(r)[|view|] == key;
  }

  /** `AddGlyphTo` as the batch list after the find-or-create step, with batch `k` then gaining the glyph's vertices. */
  lemma AddGlyphToSplit(view: seq<BatchState>, found: Option<nat>, mid: seq<BatchState>, k: nat, texture: nat, rect: Vec4, uv: Vec4,
                        info: DebugTextInfo, createSet: nat -> nat)
    requires found == FirstKey(StateKeys(view), BatchKey(info.bold, info.italic, texture))
    requires mid == if found.Some? then view else view + [BatchState(BatchKey(info.bold, info.italic, texture), createSet(texture), [])]
    requires k == match found case Some(j) => j case None => |view|
    ensures k < |mid|
    ensures AddGlyphTo(view, texture, rect, uv, info, createSet) ==
              mid[k := mid[k].(vertices := mid[k].vertices + GlyphVertices(rect, uv, info))]
  {
    assert [] + GlyphVertices(rect, uv, info) == GlyphVertices(rect, uv, info);
  }

  /** One glyph adds exactly its own vertices to the total and keeps every earlier batch's vertices as a prefix. */
  lemma AddGlyphToGrows(view: seq<BatchState>, texture: nat, rect: Vec4, uv: Vec4, info: DebugTextInfo, createSet: nat -> nat)
    ensures var r := AddGlyphTo(view, texture, rect, uv, info, createSet);
            Grows(view, r) && VertexTotal(r) == VertexTotal(view) + |GlyphVertices(rect, uv, info)|
  {
    var key := BatchKey(info.bold, info.italic, texture);
    var vs := GlyphVertices(rect, uv, info);
    var vss := StateVertices(view);
    match FirstKey(StateKeys(view), key)
    case Some(k) =>
      assert StateVertices(AddGlyphTo(view, texture, rect, uv, info, createSet)) == vss[k := vss[k] + vs];
      ConcatGrow(vss, k, vs);
    case None =>
      assert StateVertices(AddGlyphTo(view, texture, rect, uv, info, createSet)) == vss + [vs];
      ConcatAppend(vss, [vs]);
      assert [vs][..0] == [];
  }

  /** Where a drawable glyph goes: its atlas texture, screen rectangle and texture rectangle. */
  datatype GlyphPlacement = GlyphPlacement(texture: nat, rect: Vec4, uv: Vec4)

  /** The placement of glyph `g` with the pen at `pen`: offset by its bearing, sized by `scale`, its atlas cell scaled by the inverse texture size. */
  function PlaceGlyph(face: FontFace, g: Glyph, invTextureSize: Vec2, pen: Vec2, scale: real): GlyphPlacement {
    GlyphPlacement(
      face.pageTexture(g.page),
      Vec4(pen.x + g.bearingX as real * scale, pen.y - g.bearingY as real * scale, g.width as real * scale, g.height as real * scale),
      Vec4(g.x as real * invTextureSize.x, g.y as real * invTextureSize.y, g.width as real * invTextureSize.x, g.height as real * invTextureSize.y))
  }

  /** The batches and the pen position while a text is laid out. */
  datatype LayoutState = LayoutState(batches: seq<BatchState>, pen: Vec2)

  /**
    The batches after one code point with the pen at `pen`: '\r', '\n', a
    code point without a glyph and an empty glyph add nothing; any other
    glyph is added at the pen.
   */
  function GlyphStep(batches: seq<BatchState>, face: FontFace, invTextureSize: Vec2, code: nat, pen: Vec2,
                     info: DebugTextInfo, createSet: nat -> nat): seq<BatchState>
  {
    if code == CARRIAGE_RETURN || code == LINE_FEED || code !in face.glyphs then batches
    else
      var g := face.glyphs[code];
      if g.width > 0 && g.height > 0 then
        var p := PlaceGlyph(face, g, invTextureSize, pen, info.scale);
        AddGlyphTo(batches, p.texture, p.rect, p.uv, info, createSet)
      else batches
  }

  /**
    The pen after one code point: '\n' moves it to the left edge one line
    down; '\r' and a code point without a glyph leave it; any other moves
    it right by the glyph's scaled advance.
   */
  function PenStep(pen: Vec2, face: FontFace, code: nat, left: real, lineHeight: real, scale: real): Vec2 {
    if code == LINE_FEED then Vec2(left, pen.y + lineHeight)
    else if code == CARRIAGE_RETURN || code !in face.glyphs then pen
    else Vec2(pen.x + face.glyphs[code].advance as real * scale, pen.y)
  }

  /** One code point of the layout: its glyph, then its pen move. */
  function CodePointStep(s: LayoutState, face: FontFace, invTextureSize: Vec2, code: nat, left: real, lineHeight: real,
                         info: DebugTextInfo, createSet: nat -> nat): LayoutState
  {
    LayoutState(GlyphStep(s.batches, face, invTextureSize, code, s.pen, info, createSet),
                PenStep(s.pen, face, code, left, lineHeight, info.scale))
  }

  /** The code points of `text`, one after the other, from `s`, with line height `face.lineHeight * scale`. */
  function LayOut(s: LayoutState, face: FontFace, invTextureSize: Vec2, text: seq<nat>, left: real,
                  info: DebugTextInfo, createSet: nat -> nat): LayoutState
    decreases |text|
  {
    if text == [] then s
    else CodePointStep(LayOut(s, face, invTextureSize, text[..|text| - 1], left, info, createSet),
                       face, invTextureSize, text[|text| - 1], left, face.lineHeight as real * info.scale, info, createSet)
  }

  /** Laying out one more code point is one more step. */
  lemma LayOutStep(s: LayoutState, face: FontFace, invTextureSize: Vec2, text: seq<nat>, i: nat, left: real,
                   info: DebugTextInfo, createSet: nat -> nat)
    requires i < |text|
    ensures LayOut(s, face, invTextureSize, text[..i + 1], left, info, createSet) ==
              CodePointStep(LayOut(s, face, invTextureSize, text[..i], left, info, createSet),
                            face, invTextureSize, text[i], left, face.lineHeight as real * info.scale, info, createSet)
  {
    assert text[..i + 1][..i] == text[..i];
  }

  /** One code point adds exactly its vertex count and keeps every earlier batch's vertices as a prefix. */
  lemma CodePointGrows(s: LayoutState, face: FontFace, invTextureSize: Vec2, code: nat, left: real, lineHeight: real,
                       info: DebugTextInfo, createSet: nat -> nat)
    ensures var r := CodePointStep(s, face, invTextureSize, code, left, lineHeight, info, createSet);
            Grows(s.batches, r.batches) && VertexTotal(r.batches) == VertexTotal(s.batches) + GlyphVertexCount(face, code, info)
  {
    if code != CARRIAGE_RETURN && code != LINE_FEED && code in face.glyphs {
      var g := face.glyphs[code];
      if g.width > 0 && g.height > 0 {
        var p := PlaceGlyph(face, g, invTextureSize, s.pen, info.scale);
        AddGlyphToGrows(s.batches, p.texture, p.rect, p.uv, info, createSet);
      }
    }
  }

  /** Laying out `text` adds exactly `TextVertexCount` vertices and keeps every earlier batch's vertices as a prefix. */
  lemma {:induction false} LayOutGrows(s: LayoutState, face: FontFace, invTextureSize: Vec2, text: seq<nat>, left: real,
                                       info: DebugTextInfo, createSet: nat -> nat)
    ensures var r := LayOut(s, face, invTextureSize, text, left, info, createSet);
            Grows(s.batches, r.batches) && VertexTotal(r.batches) == VertexTotal(s.batches) + TextVertexCount(face, text, info)
    decreases |text|
  {
    if text != [] {
      var init := text[..|text| - 1];
      var mid := LayOut(s, face, invTextureSize, init, left, info, createSet);
      LayOutGrows(s, face, invTextureSize, init, left, info, createSet);
      CodePointGrows(mid, face, invTextureSize, text[|text| - 1], left, face.lineHeight as real * info.scale, info, createSet);
      GrowsTransitive(s.batches, mid.batches,
                      LayOut(s, face, invTextureSize, text, left, info, createSet).batches);
    }
  }

  /** Laying out `a + b` is laying out `a`, then `b` from where `a` left off. */
  lemma {:induction false} LayOutAppend(s: LayoutState, face: FontFace, invTextureSize: Vec2, a: seq<nat>, b: seq<nat>, left: real,
                                        info: DebugTextInfo, createSet: nat -> nat)
    ensures LayOut(s, face, invTextureSize, a + b, left, info, createSet) ==
              LayOut(LayOut(s, face, invTextureSize, a, left, info, createSet), face, invTextureSize, b, left, info, createSet)
    decreases |b|
  {
    if b == [] {
      assert a + b == a;
    } else {
      var b0 := b[..|b| - 1];
      assert (a + b)[..|a + b| - 1] == a + b0;
      assert (a + b)[|a + b| - 1] == b[|b| - 1];
      LayOutAppend(s, face, invTextureSize, a, b0, left, info, createSet);
    }
  }

  /** The pen's horizontal travel over a text: the scaled advance of every code point with a glyph, '\r' and '\n' aside. */
  function TextAdvance(face: FontFace, text: seq<nat>, scale: real): real
    decreases |text|
  {
    if text == [] then 0.0
    else
      var c := text[|text| - 1];
      TextAdvance(face, text[..|text| - 1], scale) +
      (if c == CARRIAGE_RETURN || c == LINE_FEED || c !in face.glyphs then 0.0 else face.glyphs[c].advance as real * scale)
  }

  /** The number of '\n' in a text. */
  function LineFeeds(text: seq<nat>): nat
    decreases |text|
  {
    if text == [] then 0 else LineFeeds(text[..|text| - 1]) + (if text[|text| - 1] == LINE_FEED then 1 else 0)
  }

  /** The pen after the code points of `text`, one after the other, from `pen`. */
  function PenAfter(pen: Vec2, face: FontFace, text: seq<nat>, left: real, lineHeight: real, scale: real): Vec2
    decreases |text|
  {
    if text == [] then pen
    else PenStep(PenAfter(pen, face, text[..|text| - 1], left, lineHeight, scale), face, text[|text| - 1], left, lineHeight, scale)
  }

  /** The pen of a layout moves as `PenAfter` says, whatever the batches hold. */
  lemma {:induction false} LayOutPen(s: LayoutState, face: FontFace, invTextureSize: Vec2, text: seq<nat>, left: real,
                                     info: DebugTextInfo, createSet: nat -> nat)
    ensures LayOut(s, face, invTextureSize, text, left, info, createSet).pen ==
              PenAfter(s.pen, face, text, left, face.lineHeight as real * info.scale, info.scale)
    decreases |text|
  {
    if text != [] {
      LayOutPen(s, face, invTextureSize, text[..|text| - 1], left, info, createSet);
    }
  }

  lemma LinesStep(n: nat, h: real)
    ensures (n + 1) as real * h == n as real * h + h
  {
  }

  /** Every '\n' moves the pen one line down, and nothing else moves it vertically. */
  lemma {:induction false} PenLines(pen: Vec2, face: FontFace, text: seq<nat>, left: real, lineHeight: real, scale: real)
    ensures PenAfter(pen, face, text, left, lineHeight, scale).y == pen.y + LineFeeds(text) as real * lineHeight
    decreases |text|
  {
    if text != [] {
      var init := text[..|text| - 1];
      var n := LineFeeds(init);
      PenLines(pen, face, init, left, lineHeight, scale);
      if text[|text| - 1] == LINE_FEED {
        LinesStep(n, lineHeight);
      }
    }
  }

  /** On a text without '\n' the pen moves right by the text's advance and stays on its line. */
  lemma {:induction false} PenAdvance(pen: Vec2, face: FontFace, text: seq<nat>, left: real, lineHeight: real, scale: real)
    requires forall c <- text :: c != LINE_FEED
    ensures PenAfter(pen, face, text, left, lineHeight, scale) == Vec2(pen.x + TextAdvance(face, text, scale), pen.y)
    decreases |text|
  {
    if text != [] {
      var init := text[..|text| - 1];
      assert forall c <- init :: c in text;
      assert text[|text| - 1] in text;
      PenAdvance(pen, face, init, left, lineHeight, scale);
    }
  }

  // ----- The renderer -----

  /** The renderer: the vertex buffer (absent until activated) and the four font slots. */
  class DebugRenderer {
    var buffer: DebugVertexBuffer?
    var fonts: seq<FontInfo>

    ghost predicate Valid()
      reads this, buffer
    {
      |fonts| == DEBUG_FONT_COUNT && (buffer != null ==> buffer.Valid())
    }

    /** What `render` and `addText` may change: the buffer and its batches. */
    ghost function Footprint(): set<object>
      reads this, buffer
    {
      if buffer == null then {} else {buffer as object} + set b: DebugBatch | b in buffer.batches :: b as object
    }

    constructor ()
      ensures Valid() && buffer == null
      ensures fonts == seq(DEBUG_FONT_COUNT, _ => FontInfo(None, Vec2(0.0, 0.0)))
    {
      buffer := null;
      fonts := seq(DEBUG_FONT_COUNT, _ => FontInfo(None, Vec2(0.0, 0.0)));
    }

    /**
      Create the vertex buffer for `maxCharacters` characters of six vertices
      each (a uint32 product) and install the four loaded font slots.
     */
    method Activate(maxCharacters: nat, inputAssembler: nat, loaded: seq<FontInfo>)
      requires maxCharacters < U32_MODULUS && |loaded| == DEBUG_FONT_COUNT
      modifies this
      ensures Valid() && fresh(buffer) && fonts == loaded
      ensures buffer.maxVertices == ToU32(maxCharacters * DEBUG_VERTICES_PER_CHAR)
      ensures buffer.batches == [] && buffer.inputAssembler == inputAssembler
    {
      buffer := new DebugVertexBuffer(ToU32(maxCharacters * DEBUG_VERTICES_PER_CHAR), inputAssembler);
      fonts := loaded;
    }

    /** Append the six vertices of a quad to `batch`. */
    method AddQuad(batch: DebugBatch, rect: Vec4, uv: Vec4, color: Color)
      modifies batch
      ensures batch.vertices == old(batch.vertices) + QuadVertices(rect, uv, color)
    {
      var q0 := DebugVertex(Vec2(rect.x, rect.y), Vec2(uv.x, uv.y), color);
      var q1 := DebugVertex(Vec2(rect.x + rect.z, rect.y), Vec2(uv.x + uv.z, uv.y), color);
      var q2 := DebugVertex(Vec2(rect.x, rect.y + rect.w), Vec2(uv.x, uv.y + uv.w), color);
      var q3 := DebugVertex(Vec2(rect.x + rect.z, rect.y + rect.w), Vec2(uv.x + uv.z, uv.y + uv.w), color);
      batch.vertices := batch.vertices + [q0];
      batch.vertices := batch.vertices + [q1];
      batch.vertices := batch.vertices + [q2];
      batch.vertices := batch.vertices + [q1];
      batch.vertices := batch.vertices + [q3];
      batch.vertices := batch.vertices + [q2];
    }

    /** The shadow loops of `addText`: `batch` gains the shadow quads, row by row. */
    method ShadowQuads(batch: DebugBatch, rect: Vec4, uv: Vec4, thickness: nat, color: Color)
      modifies batch
      ensures batch.vertices == old(batch.vertices) + ShadowVertices(rect, uv, thickness, color, thickness)
    {
      ghost var before := batch.vertices;
      assert before + ShadowVertices(rect, uv, thickness, color, 0) == before;
      var x := 1;
      while x <= thickness
        invariant 1 <= x <= thickness + 1
        invariant batch.vertices == before + ShadowVertices(rect, uv, thickness, color, x - 1)
      {
        ghost var done := batch.vertices;
        ShadowRowQuads(batch, rect, uv, thickness, color, x);
        VertexAssoc(before, ShadowVertices(rect, uv, thickness, color, x - 1), ShadowRow(rect, uv, color, x, thickness));
        x := x + 1;
      }
    }

    /** The inner shadow loop: row `x` of the shadow, quads (x, 1) to (x, thickness). */
    method ShadowRowQuads(batch: DebugBatch, rect: Vec4, uv: Vec4, thickness: nat, color: Color, x: nat)
      modifies batch
      ensures batch.vertices == old(batch.vertices) + ShadowRow(rect, uv, color, x, thickness)
    {
      ghost var before := batch.vertices;
      assert before + ShadowRow(rect, uv, color, x, 0) == before;
      var y := 1;
      while y <= thickness
        invariant 1 <= y <= thickness + 1
        invariant batch.vertices == before + ShadowRow(rect, uv, color, x, y - 1)
      {
        var shadowRect := Vec4(rect.x + x as real, rect.y + y as real, rect.z, rect.w);
        AddQuad(batch, shadowRect, uv, color);
        VertexAssoc(before, ShadowRow(rect, uv, color, x, y - 1), ShadowQuad(rect, uv, color, x, y));
        y := y + 1;
      }
    }

    /**
      Draw the frame's text and clear it. Without a buffer, or with every
      batch empty, nothing is recorded or changed. Otherwise: upload the
      vertices, bind the debug pipeline state (subpass 0) and the buffer's
      input assembler, record one bind of the batch's material set and one
      draw per range of `Ranges`, and clear every batch.
     */
    method Render(renderPass: nat, cmdBuff: CommandBuffer, pass: Pass, shader: nat, cache: PsoKey -> nat)
      requires Valid()
      modifies cmdBuff, Footprint()
      ensures Valid() && buffer == old(buffer) && fonts == old(fonts)
      ensures buffer == null ==> cmdBuff.commands == old(cmdBuff.commands)
      ensures buffer != null ==> buffer.batches == old(buffer.batches)
      ensures buffer != null && old(AllEmpty(buffer.Contents())) ==>
                cmdBuff.commands == old(cmdBuff.commands) && buffer.uploaded == old(buffer.uploaded) &&
                buffer.Contents() == old(buffer.Contents())
      ensures buffer != null && !old(AllEmpty(buffer.Contents())) ==>
                buffer.uploaded == UploadOf(old(buffer.Contents()), buffer.maxVertices) &&
                cmdBuff.commands ==
                  old(cmdBuff.commands) +
                  [Command.BindPipelineState(cache(PsoKey(pass, shader, buffer.inputAssembler, renderPass, 0))),
                   Command.BindInputAssembler(buffer.inputAssembler)] +
                  RangeCommands(Ranges(InfosOf(old(buffer.Contents()), buffer.Sets()), buffer.maxVertices, 0)) &&
                AllEmpty(buffer.Contents())
    {
      if buffer == null {
        return;
      }
      assert forall o <- buffer.batches :: o in Footprint();
      DrawBuffer(buffer, renderPass, cmdBuff, pass, shader, cache);
    }

    /** `render` once the buffer exists. */
    method DrawBuffer(b: DebugVertexBuffer, renderPass: nat, cmdBuff: CommandBuffer, pass: Pass, shader: nat, cache: PsoKey -> nat)
      requires b.Valid()
      modifies cmdBuff, b, b.batches
      ensures b.Valid() && b.batches == old(b.batches)
      ensures old(AllEmpty(b.Contents())) ==>
                cmdBuff.commands == old(cmdBuff.commands) && b.uploaded == old(b.uploaded) &&
                b.Contents() == old(b.Contents())
      ensures !old(AllEmpty(b.Contents())) ==>
                b.uploaded == UploadOf(old(b.Contents()), b.maxVertices) &&
                cmdBuff.commands ==
                  old(cmdBuff.commands) +
                  [Command.BindPipelineState(cache(PsoKey(pass, shader, b.inputAssembler, renderPass, 0))),
                   Command.BindInputAssembler(b.inputAssembler)] +
                  RangeCommands(Ranges(InfosOf(old(b.Contents()), b.Sets()), b.maxVertices, 0)) &&
                AllEmpty(b.Contents())
    {
      var e := b.Empty();
      if e {
        return;
      }
      DrawNonEmpty(b, renderPass, cmdBuff, pass, shader, cache);
    }

    /** `render` once the buffer exists and some batch holds vertices: upload, bind, draw the ranges, clear. */
    method DrawNonEmpty(b: DebugVertexBuffer, renderPass: nat, cmdBuff: CommandBuffer, pass: Pass, shader: nat, cache: PsoKey -> nat)
      requires b.Valid() && !AllEmpty(b.Contents())
      modifies cmdBuff, b, b.batches
      ensures b.Valid() && b.batches == old(b.batches)
      ensures b.uploaded == UploadOf(old(b.Contents()), b.maxVertices)
      ensures cmdBuff.commands ==
                old(cmdBuff.commands) +
                [Command.BindPipelineState(cache(PsoKey(pass, shader, b.inputAssembler, renderPass, 0))),
                 Command.BindInputAssembler(b.inputAssembler)] +
                RangeCommands(Ranges(InfosOf(old(b.Contents()), b.Sets()), b.maxVertices, 0))
      ensures AllEmpty(b.Contents())
    {
      ghost var contents := b.Contents();
      ghost var sets := b.Sets();
      ghost var infos := InfosOf(contents, sets);
      b.Update();
      assert b.Contents() == contents;
      var ia := b.inputAssembler;
      var pso := cache(PsoKey(pass, shader, ia, renderPass, 0));
      cmdBuff.BindPipelineState(pso);
      cmdBuff.BindInputAssembler(ia);
      ghost var start := cmdBuff.commands;
      assert start == old(cmdBuff.commands) + [Command.BindPipelineState(pso), Command.BindInputAssembler(ia)];
      DrawRanges(b, cmdBuff, infos);
      ghost var upload := b.uploaded;
      ghost var recorded := cmdBuff.commands;
      b.Reset();
      assert b.Sets() == sets;
      assert b.uploaded == upload && cmdBuff.commands == recorded;
    }

    /** The range loop of `render`: one material bind and one ranged draw per range of `Ranges`. */
    method DrawRanges(b: DebugVertexBuffer, cmdBuff: CommandBuffer, ghost infos: seq<BatchInfo>)
      requires b.maxVertices < U32_MODULUS
      requires |infos| == |b.batches|
      requires forall j :: 0 <= j < |infos| ==> infos[j] == BatchInfo(b.batches[j].descriptorSet, |b.batches[j].vertices|)
      modifies cmdBuff
      ensures cmdBuff.commands == old(cmdBuff.commands) + RangeCommands(Ranges(infos, b.maxVertices, 0))
    {
      ghost var start := cmdBuff.commands;
      ghost var whole := RangeCommands(Ranges(infos, b.maxVertices, 0));
      var offset: nat := 0;
      var i := 0;
      while i < |b.batches|
        invariant 0 <= i <= |b.batches| && offset <= b.maxVertices
        invariant cmdBuff.commands + RangeCommands(Ranges(infos[i..], b.maxVertices, offset)) == start + whole
      {
        var batch := b.batches[i];
        assert infos[i] == BatchInfo(batch.descriptorSet, |batch.vertices|);
        var count := Min(ToU32(|batch.vertices|), b.maxVertices - offset);
        RangesStep(infos, i, b.maxVertices, offset);
        if count == 0 {
          break;
        }
        ghost var before := cmdBuff.commands;
        cmdBuff.BindDescriptorSet(MaterialSet, batch.descriptorSet, []);
        cmdBuff.DrawRange(offset, count);
        RangesAdvance(start + whole, before, cmdBuff.commands, infos, i, b.maxVertices, offset, count);
        offset := offset + count;
        i := i + 1;
      }
      assert i == |infos| ==> infos[i..] == [];
    }

    /**
      One drawable glyph of `addText`: find or create the batch of its style
      and atlas texture, add the shadow quads when the style has a shadow,
      then the glyph's own quad.
     */
    method AddGlyph(b: DebugVertexBuffer, texture: nat, rect: Vec4, uv: Vec4, info: DebugTextInfo, createSet: nat -> nat)
      requires b.Valid()
      modifies b, b.batches
      ensures b.Valid()
      ensures old(b.batches) <= b.batches && forall x <- b.batches :: x in old(b.batches) || fresh(x)
      ensures b.View() == AddGlyphTo(old(b.View()), texture, rect, uv, info, createSet)
    {
      ghost var view := b.View();
      ghost var found := FirstMatch(b.batches, info.bold, info.italic, texture);
      b.ViewAgrees();
      var batch;
      ghost var k;
      batch, k := b.GetOrCreateBatch(info.bold, info.italic, texture, createSet);
      AddGlyphInto(b, batch, k, rect, uv, info, view, found, texture, createSet);
    }

    /**
      The quads of one glyph into batch `k`, the batch the find-or-create
      step left for the key of `info` and `texture` in `view`; the new
      values are those `AddGlyphTo` gives.
     */
    method AddGlyphInto(b: DebugVertexBuffer, batch: DebugBatch, ghost k: nat, rect: Vec4, uv: Vec4, info: DebugTextInfo,
                        ghost view: seq<BatchState>, ghost found: Option<nat>, ghost texture: nat, ghost createSet: nat -> nat)
      requires b.Valid() && k < |b.batches| && b.batches[k] == batch
      requires found == FirstKey(StateKeys(view), BatchKey(info.bold, info.italic, texture))
      requires b.View() == if found.Some? then view else view + [BatchState(BatchKey(info.bold, info.italic, texture), createSet(texture), [])]
      requires k == match found case Some(j) => j case None => |view|
      modifies batch
      ensures b.View() == AddGlyphTo(view, texture, rect, uv, info, createSet)
    {
      AddGlyphToSplit(view, found, b.View(), k, texture, rect, uv, info, createSet);
      AddGlyphQuads(b, batch, k, rect, uv, info);
    }

    /** The quads of one glyph, shadow first, all into batch `k`; no other batch changes. */
    method AddGlyphQuads(b: DebugVertexBuffer, batch: DebugBatch, ghost k: nat, rect: Vec4, uv: Vec4, info: DebugTextInfo)
      requires b.Valid() && k < |b.batches| && b.batches[k] == batch
      modifies batch
      ensures batch.vertices == old(batch.vertices) + GlyphVertices(rect, uv, info)
      ensures b.View() == old(b.View())[k := old(b.View())[k].(vertices := old(b.View())[k].vertices + GlyphVertices(rect, uv, info))]
    {
      ghost var v1 := b.View();
      forall j | 0 <= j < |b.batches| && j != k
        ensures b.batches[j] != batch
      {
        UniqueKeysDistinct(b.batches, j, k);
      }
      ghost var before := batch.vertices;
      if info.shadow {
        ShadowQuads(batch, rect, uv, info.shadowThickness, info.shadowColor);
      }
      AddQuad(batch, rect, uv, info.color);
      assert batch.vertices == before + GlyphVertices(rect, uv, info);
      assert b.View() == v1[k := v1[k].(vertices := v1[k].vertices + GlyphVertices(rect, uv, info))];
    }

    /**
      One code point of `addText` at pen position (offsetX, offsetY): '\r'
      is skipped, '\n' moves the pen to the left edge one line down, a
      code point without a glyph is skipped, and any other advances the pen
      after adding its quads when the glyph is not empty.
     */
    method AddCodePoint(b: DebugVertexBuffer, face: FontFace, invTextureSize: Vec2, code: nat, left: real, lineHeight: real,
                        offsetX: real, offsetY: real, info: DebugTextInfo, createSet: nat -> nat)
      returns (nextX: real, nextY: real)
      requires b.Valid()
      modifies b, b.batches
      ensures b.Valid()
      ensures old(b.batches) <= b.batches && forall x <- b.batches :: x in old(b.batches) || fresh(x)
      ensures LayoutState(b.View(), Vec2(nextX, nextY)) ==
                CodePointStep(LayoutState(old(b.View()), Vec2(offsetX, offsetY)), face, invTextureSize, code, left, lineHeight, info, createSet)
      ensures code == CARRIAGE_RETURN ==> nextX == offsetX && nextY == offsetY
      ensures code == LINE_FEED ==> nextX == left && nextY == offsetY + lineHeight
      ensures code != CARRIAGE_RETURN && code != LINE_FEED && code in face.glyphs ==>
                nextX == offsetX + face.glyphs[code].advance as real * info.scale && nextY == offsetY
    {
      if code == CARRIAGE_RETURN {
        return offsetX, offsetY;
      }
      if code == LINE_FEED {
        return left, offsetY + lineHeight;
      }
      if code !in face.glyphs {
        return offsetX, offsetY;
      }
      var glyph := face.glyphs[code];
      var scale := info.scale;
      if glyph.width > 0 && glyph.height > 0 {
        var rect := Vec4(offsetX + glyph.bearingX as real * scale, offsetY - glyph.bearingY as real * scale,
                         glyph.width as real * scale, glyph.height as real * scale);
        var uv := Vec4(glyph.x as real * invTextureSize.x, glyph.y as real * invTextureSize.y,
                       glyph.width as real * invTextureSize.x, glyph.height as real * invTextureSize.y);
        assert PlaceGlyph(face, glyph, invTextureSize, Vec2(offsetX, offsetY), scale) ==
               GlyphPlacement(face.pageTexture(glyph.page), rect, uv);
        AddGlyph(b, face.pageTexture(glyph.page), rect, uv, info, createSet);
      }
      return offsetX + glyph.advance as real * scale, offsetY;
    }

    /**
      Lay out `text` (already decoded to code points) from `screenPos`:
      nothing without a buffer, a face for the style, or any text; otherwise
      the batches become those of `LayOut` from `screenPos`, with the left
      edge at `screenPos.x`: every earlier vertex stays in place, and the
      buffer gains exactly `TextVertexCount` vertices.
     */
    method AddText(text: seq<nat>, screenPos: Vec2, info: DebugTextInfo, createSet: nat -> nat)
      requires Valid()
      requires info.shadowThickness < U32_MODULUS
      modifies Footprint()
      ensures Valid() && buffer == old(buffer) && fonts == old(fonts)
      ensures buffer != null ==> old(buffer.batches) <= buffer.batches
      ensures buffer != null ==>
                buffer.View() ==
                (match fonts[FontIndex(info.bold, info.italic)].face
                 case None => old(buffer.View())
                 case Some(face) =>
                   LayOut(LayoutState(old(buffer.View()), screenPos), face, fonts[FontIndex(info.bold, info.italic)].invTextureSize,
                          text, screenPos.x, info, createSet).batches)
      ensures buffer != null ==>
                |Concat(buffer.Contents())| ==
                old(|Concat(buffer.Contents())|) +
                (match fonts[FontIndex(info.bold, info.italic)].face
                 case None => 0
                 case Some(face) => TextVertexCount(face, text, info))
    {
      FontIndexBits(info.bold, info.italic);
      var index := FontIndex(info.bold, info.italic);
      var fontInfo := fonts[index];
      if buffer == null || fontInfo.face.None? || text == [] {
        return;
      }
      assert forall x <- buffer.batches :: x in Footprint();
      ghost var start := LayoutState(buffer.View(), screenPos);
      buffer.ViewAgrees();
      LayOutText(buffer, fontInfo.face.value, fontInfo.invTextureSize, text, screenPos, info, createSet);
      LayOutGrows(start, fontInfo.face.value, fontInfo.invTextureSize, text, screenPos.x, info, createSet);
      buffer.ViewAgrees();
    }

    /** The code-point loop of `addText`, once the buffer and the face exist. */
    method LayOutText(b: DebugVertexBuffer, face: FontFace, invTextureSize: Vec2, text: seq<nat>, screenPos: Vec2,
                      info: DebugTextInfo, createSet: nat -> nat)
      requires b.Valid()
      modifies b, b.batches
      ensures b.Valid()
      ensures old(b.batches) <= b.batches && forall x <- b.batches :: x in old(b.batches) || fresh(x)
      ensures b.View() == LayOut(LayoutState(old(b.View()), screenPos), face, invTextureSize, text, screenPos.x, info, createSet).batches
    {
      ghost var start := LayoutState(b.View(), screenPos);
      var offsetX := screenPos.x;
      var offsetY := screenPos.y;
      var lineHeight := face.lineHeight as real * info.scale;
      var i := 0;
      while i < |text|
        invariant 0 <= i <= |text|
        invariant b.Valid()
        invariant old(b.batches) <= b.batches
        invariant forall x <- b.batches :: x in old(b.batches) || fresh(x)
        invariant LayoutState(b.View(), Vec2(offsetX, offsetY)) ==
                    LayOut(start, face, invTextureSize, text[..i], screenPos.x, info, createSet)
      {
        LayOutStep(start, face, invTextureSize, text, i, screenPos.x, info, createSet);
        assert forall j :: 0 <= j < |b.batches| ==> b.batches[j] in old(b.batches) || fresh(b.batches[j]);
        ghost var prior := b.batches;
        offsetX, offsetY := AddCodePoint(b, face, invTextureSize, text[i], screenPos.x, lineHeight,
                                         offsetX, offsetY, info, createSet);
        assert prior <= b.batches;
        i := i + 1;
      }
      assert text[..i] == text;
    }
  }
}
