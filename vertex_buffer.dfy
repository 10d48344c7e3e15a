/**
 * Interleaved vertex data: the shader mode decides which attributes a vertex
 * carries and how they are laid out, a fixed-capacity float buffer holds the
 * vertices, and draw points each attribute into that buffer.
 */
module VertexBuffer {

  /** A Java Float as its raw 32 bits; the buffer only copies floats, it never computes with them. */
  type Float32 = bv32

  const BYTES_PER_FLOAT := 4
  const POSITION_COMPONENT_COUNT := 2
  const COLOR_COMPONENT_COUNT := 4
  const TEXTURE_COORDINATES_COMPONENT_COUNT := 2

  /** The shader mode. */
  datatype Mode = Colored | Texture | ColoredTexture

  datatype Flags = Flags(hasColor: bool, hasTextCoordinates: bool)

  function FlagsOf(mode: Mode): (f: Flags)
    ensures f.hasColor <==> mode != Texture
    ensures f.hasTextCoordinates <==> mode != Colored
  {
    match mode
    case Colored => Flags(true, false)
    case Texture => Flags(false, true)
    case ColoredTexture => Flags(true, true)
  }

  datatype Attribute = Position | Color | TextureCoordinates

  /** One attribute of the interleaved layout: how many floats it has and at which float of a vertex it starts. */
  datatype Binding = Binding(attribute: Attribute, components: int, floatOffset: int)

  /** The attributes draw binds, in the order it binds them. */
  function Bindings(f: Flags): (bs: seq<Binding>)
    ensures |bs| == 1 + (if f.hasColor then 1 else 0) + (if f.hasTextCoordinates then 1 else 0)
    ensures bs[0] == Binding(Position, POSITION_COMPONENT_COUNT, 0)
    ensures forall i, j :: 0 <= i < j < |bs| ==> bs[i].attribute != bs[j].attribute
    ensures f.hasColor ==> bs[1] == Binding(Color, COLOR_COMPONENT_COUNT, POSITION_COMPONENT_COUNT)
    ensures f.hasTextCoordinates ==>
      bs[|bs| - 1] == Binding(TextureCoordinates, TEXTURE_COORDINATES_COMPONENT_COUNT,
                              POSITION_COMPONENT_COUNT + (if f.hasColor then COLOR_COMPONENT_COUNT else 0))
  {
    [Binding(Position, POSITION_COMPONENT_COUNT, 0)]
    + (if f.hasColor then [Binding(Color, COLOR_COMPONENT_COUNT, POSITION_COMPONENT_COUNT)] else [])
    + (if f.hasTextCoordinates
       then [Binding(TextureCoordinates, TEXTURE_COORDINATES_COMPONENT_COUNT,
                     POSITION_COMPONENT_COUNT + (if f.hasColor then COLOR_COMPONENT_COUNT else 0))]
       else [])
  }

  /** The number of floats the bindings cover together. */
  function Width(bs: seq<Binding>): int
  {
    if bs == [] then 0 else bs[0].components + Width(bs[1..])
  }

  lemma WidthOfBindings(f: Flags)
    ensures Width(Bindings(f)) ==
      POSITION_COMPONENT_COUNT
      + (if f.hasColor then COLOR_COMPONENT_COUNT else 0)
      + (if f.hasTextCoordinates then TEXTURE_COORDINATES_COMPONENT_COUNT else 0)
  {
    var bs := Bindings(f);
    assert Width(bs[|bs|..]) == 0;
    if |bs| == 2 {
      assert Width(bs[1..]) == bs[1].components + Width(bs[2..]);
    } else if |bs| == 3 {
      assert Width(bs[2..]) == bs[2].components + Width(bs[3..]);
      assert Width(bs[1..]) == bs[1].components + Width(bs[2..]);
    }
  }

  /** The stride: the size of one vertex in bytes. */
  function VertexSize(f: Flags): (bytes: int)
    ensures bytes == BYTES_PER_FLOAT * Width(Bindings(f))
  {
    WidthOfBindings(f);
    (POSITION_COMPONENT_COUNT
     + (if f.hasColor then COLOR_COMPONENT_COUNT else 0)
     + (if f.hasTextCoordinates then TEXTURE_COORDINATES_COMPONENT_COUNT else 0)
    ) * BYTES_PER_FLOAT
  }

  /** Twenty-four bytes for colored vertices, sixteen for textured, thirty-two for both. */
  lemma VertexSizes()
    ensures VertexSize(FlagsOf(Colored)) == 24
    ensures VertexSize(FlagsOf(Texture)) == 16
    ensures VertexSize(FlagsOf(ColoredTexture)) == 32
  {
  }

  /**
   * The attribute windows tile one vertex: the first is position at float 0,
   * each next one starts where the previous ends, and the last ends at the
   * stride; so no two overlap and each fits in a vertex.
   */
  lemma BindingsTileVertex(f: Flags)
    ensures var bs := Bindings(f);
      |bs| >= 1 && bs[0] == Binding(Position, POSITION_COMPONENT_COUNT, 0) &&
      (forall i :: 0 <= i < |bs| ==> bs[i].components > 0) &&
      (forall i :: 0 <= i < |bs| - 1 ==> bs[i + 1].floatOffset == bs[i].floatOffset + bs[i].components) &&
      bs[|bs| - 1].floatOffset + bs[|bs| - 1].components == VertexSize(f) / BYTES_PER_FLOAT
  {
    var bs := Bindings(f);
    var p := Binding(Position, POSITION_COMPONENT_COUNT, 0);
    var c := Binding(Color, COLOR_COMPONENT_COUNT, POSITION_COMPONENT_COUNT);
    if f.hasColor && f.hasTextCoordinates {
      assert bs == [p, c, Binding(TextureCoordinates, TEXTURE_COORDINATES_COMPONENT_COUNT, 6)];
    } else if f.hasColor {
      assert bs == [p, c];
    } else if f.hasTextCoordinates {
      assert bs == [p, Binding(TextureCoordinates, TEXTURE_COORDINATES_COMPONENT_COUNT, 2)];
    } else {
      assert bs == [p];
    }
  }

  /** Color is bound exactly when the mode has color, texture coordinates exactly when it has them. */
  lemma BindingsFollowFlags(f: Flags)
    ensures (exists i :: 0 <= i < |Bindings(f)| && Bindings(f)[i].attribute == Color) <==> f.hasColor
    ensures (exists i :: 0 <= i < |Bindings(f)| && Bindings(f)[i].attribute == TextureCoordinates) <==> f.hasTextCoordinates
  {
    var bs := Bindings(f);
    var p := Binding(Position, POSITION_COMPONENT_COUNT, 0);
    var c := Binding(Color, COLOR_COMPONENT_COUNT, POSITION_COMPONENT_COUNT);
    if f.hasColor && f.hasTextCoordinates {
      assert bs == [p, c, Binding(TextureCoordinates, TEXTURE_COORDINATES_COMPONENT_COUNT, 6)];
      assert bs[1].attribute == Color && bs[2].attribute == TextureCoordinates;
    } else if f.hasColor {
      assert bs == [p, c];
      assert bs[1].attribute == Color;
      assert forall i :: 0 <= i < |bs| ==> bs[i].attribute != TextureCoordinates;
    } else if f.hasTextCoordinates {
      assert bs == [p, Binding(TextureCoordinates, TEXTURE_COORDINATES_COMPONENT_COUNT, 2)];
      assert bs[1].attribute == TextureCoordinates;
      assert forall i :: 0 <= i < |bs| ==> bs[i].attribute != Color;
    } else {
      assert bs == [p];
      assert forall i :: 0 <= i < |bs| ==> bs[i].attribute != Color && bs[i].attribute != TextureCoordinates;
    }
  }

  /** The float capacity of the buffer: the bytes allocated, read as floats. */
  function Capacity(vertexSize: int, verticesCount: int): (floats: int)
    ensures 0 <= vertexSize && 0 <= verticesCount ==> 0 <= floats
    ensures vertexSize % BYTES_PER_FLOAT == 0 ==> floats * BYTES_PER_FLOAT == vertexSize * verticesCount
  {
    var perVertex := vertexSize / BYTES_PER_FLOAT;
    assert vertexSize % BYTES_PER_FLOAT == 0 ==>
      vertexSize * verticesCount == (perVertex * verticesCount) * BYTES_PER_FLOAT;
    (vertexSize * verticesCount) / BYTES_PER_FLOAT
  }

  /** The capacity is exactly one vertex's floats per vertex. */
  lemma CapacityPerVertex(f: Flags, verticesCount: nat)
    ensures Capacity(VertexSize(f), verticesCount) == Width(Bindings(f)) * verticesCount
  {
  }

  /** The calls draw makes on GL. */
  datatype GlCall =
    | VertexAttribPointer(attribute: Attribute, size: int, strideBytes: int, bufferPosition: int)
    | EnableVertexAttribArray(attribute: Attribute)
    | DrawArrays(primitive: int, first: int, count: int)

  /** What draw does: the GL calls made, the buffer position left behind, and whether it got to the draw call. */
  datatype DrawResult = DrawResult(calls: seq<GlCall>, position: int, ok: bool)

  /**
   * Bind each attribute in turn (move the buffer position to its offset, point
   * GL at it, enable it), then draw. Moving the position beyond the limit throws,
   * which ends draw with the position where it was.
   */
  function BindAndDraw(bs: seq<Binding>, stride: int, limit: int, position: int,
                       primitive: int, first: int, count: int): (r: DrawResult)
    ensures r.ok ==> |r.calls| == 2 * |bs| + 1 && r.calls[|r.calls| - 1] == DrawArrays(primitive, first, count)
    ensures !r.ok ==> |r.calls| < 2 * |bs|
    decreases |bs|
  {
    if bs == [] then DrawResult([DrawArrays(primitive, first, count)], position, true)
    else if bs[0].floatOffset < 0 || bs[0].floatOffset > limit then DrawResult([], position, false)
    else
      var rest := BindAndDraw(bs[1..], stride, limit, bs[0].floatOffset, primitive, first, count);
      DrawResult([VertexAttribPointer(bs[0].attribute, bs[0].components, stride, bs[0].floatOffset),
                  EnableVertexAttribArray(bs[0].attribute)] + rest.calls,
                 rest.position, rest.ok)
  }

  lemma BindAndDrawCons(b: Binding, bs: seq<Binding>, stride: int, limit: int, position: int,
                        primitive: int, first: int, count: int)
    ensures BindAndDraw([b] + bs, stride, limit, position, primitive, first, count) ==
      if b.floatOffset < 0 || b.floatOffset > limit then DrawResult([], position, false)
      else
        var rest := BindAndDraw(bs, stride, limit, b.floatOffset, primitive, first, count);
        DrawResult([VertexAttribPointer(b.attribute, b.components, stride, b.floatOffset),
                    EnableVertexAttribArray(b.attribute)] + rest.calls,
                   rest.position, rest.ok)
  {
  }

  /** The GL calls that bind every attribute of `bs`. */
  function PointAll(bs: seq<Binding>, stride: int): seq<GlCall>
  {
    if bs == [] then []
    else [VertexAttribPointer(bs[0].attribute, bs[0].components, stride, bs[0].floatOffset),
          EnableVertexAttribArray(bs[0].attribute)] + PointAll(bs[1..], stride)
  }

  /**
   * When every offset lies within the limit, draw binds every attribute with
   * the stride, in order, and ends with one draw call carrying primitive, first
   * and count unchanged; otherwise it never reaches the draw call.
   */
  lemma {:induction false} DrawWithinLimit(bs: seq<Binding>, stride: int, limit: int, position: int,
                                           primitive: int, first: int, count: int)
    ensures var r := BindAndDraw(bs, stride, limit, position, primitive, first, count);
      r.ok <==> (forall i :: 0 <= i < |bs| ==> 0 <= bs[i].floatOffset <= limit)
    ensures var r := BindAndDraw(bs, stride, limit, position, primitive, first, count);
      r.ok ==> r.calls == PointAll(bs, stride) + [DrawArrays(primitive, first, count)] &&
               r.position == (if bs == [] then position else bs[|bs| - 1].floatOffset)
    ensures var r := BindAndDraw(bs, stride, limit, position, primitive, first, count);
      !r.ok ==> forall c :: c in r.calls ==> !c.DrawArrays?
    decreases |bs|
  {
    if bs != [] && 0 <= bs[0].floatOffset <= limit {
      var tail := bs[1..];
      DrawWithinLimit(tail, stride, limit, bs[0].floatOffset, primitive, first, count);
      assert forall i :: 1 <= i < |bs| ==> bs[i] == tail[i - 1];
    }
  }

  /** The buffer as draw and setVertices see it: its floats, its position and its limit. */
  datatype BufferState = BufferState(contents: seq<Float32>, position: int, limit: int)

  /** How FloatBuffer.put ends. */
  datatype PutOutcome = Done | IndexOutOfBounds | BufferOverflow

  /**
   * setVertices: clear, put `length` floats of `src` from `offset`, flip. An
   * out-of-range slice or a slice larger than the buffer throws before
   * anything is copied, leaving the buffer cleared.
   */
  function Fill(b: BufferState, src: seq<Float32>, offset: int, length: int): (r: (PutOutcome, BufferState))
    ensures |r.1.contents| == |b.contents| && r.1.position == 0 && 0 <= r.1.limit <= |r.1.contents|
  {
    var cleared := BufferState(b.contents, 0, |b.contents|);
    if offset < 0 || length < 0 || offset + length > |src| then (IndexOutOfBounds, cleared)
    else if length > cleared.limit - cleared.position then (BufferOverflow, cleared)
    else (Done, BufferState(src[offset..offset + length] + b.contents[length..], 0, length))
  }

  /**
   * setVertices succeeds exactly when the slice exists and fits; then the
   * buffer starts with the slice, keeps the rest, and is ready to be read from
   * position 0 up to a limit of `length`. On failure the contents are unchanged.
   */
  lemma FillSpec(b: BufferState, src: seq<Float32>, offset: int, length: int)
    ensures var (outcome, after) := Fill(b, src, offset, length);
      (outcome == Done <==> 0 <= offset && 0 <= length && offset + length <= |src| && length <= |b.contents|) &&
      |after.contents| == |b.contents| && after.position == 0 &&
      (outcome == Done ==>
        after.limit == length &&
        (forall i :: 0 <= i < length ==> after.contents[i] == src[offset + i]) &&
        (forall i :: length <= i < |b.contents| ==> after.contents[i] == b.contents[i])) &&
      (outcome != Done ==> after.contents == b.contents && after.limit == |b.contents|)
  {
  }

  /** Repeating setVertices with the same arguments changes nothing further. */
  lemma FillIdempotent(b: BufferState, src: seq<Float32>, offset: int, length: int)
    ensures var (outcome, after) := Fill(b, src, offset, length);
      Fill(after, src, offset, length) == (outcome, after)
  {
  }

  /**
   * How the demos use it: a buffer made for `verticesCount` vertices, in any
   * state (fresh, or read from by an earlier draw), filled from offset 0 with
   * one vertex's floats per vertex, is filled exactly to capacity, and a draw
   * afterwards binds every attribute and draws.
   */
  lemma {:induction false} FillToCapacity(mode: Mode, verticesCount: nat, b: BufferState, src: seq<Float32>,
                                          primitive: int, first: int, count: int)
    requires |b.contents| == Capacity(VertexSize(FlagsOf(mode)), verticesCount)
    requires |src| == Width(Bindings(FlagsOf(mode))) * verticesCount
    ensures var (outcome, after) := Fill(b, src, 0, |src|);
      outcome == Done && after == BufferState(src, 0, |b.contents|)
    ensures var (_, after) := Fill(b, src, 0, |src|);
      var f := FlagsOf(mode);
      verticesCount > 0 ==>
        BindAndDraw(Bindings(f), VertexSize(f), after.limit, after.position, primitive, first, count).ok
  {
    var f := FlagsOf(mode);
    CapacityPerVertex(f, verticesCount);
    assert src[0..|src|] == src;
    assert b.contents[|src|..] == [];
    BindingsTileVertex(f);
    var bs := Bindings(f);
    if verticesCount > 0 {
      var w := Width(bs);
      assert w <= w * verticesCount;
      DrawWithinLimit(bs, VertexSize(f), |src|, 0, primitive, first, count);
    }
  }

  class Vertices {
    const flags: Flags
    const vertexSize: int
    const buffer: array<Float32>
    var position: int
    var limit: int
    /** The GL calls draw has made so far. */
    ghost var glCalls: seq<GlCall>

    /** The FloatBuffer invariant 0 <= position <= limit <= capacity, and the stride of the mode. */
    ghost predicate Valid()
      reads this
    {
      0 <= position <= limit <= buffer.Length && vertexSize == VertexSize(flags)
    }

    ghost function State(): BufferState
      reads this, buffer
    {
      BufferState(buffer[..], position, limit)
    }

    /** Allocate room for `verticesCount` vertices of the shader's mode; a fresh buffer is all zeros, open to its capacity. */
    constructor (mode: Mode, verticesCount: nat)
      ensures Valid() && fresh(buffer)
      ensures flags == FlagsOf(mode) && vertexSize == VertexSize(flags)
      ensures buffer.Length == Capacity(vertexSize, verticesCount)
      ensures State() == BufferState(seq(buffer.Length, _ => 0), 0, buffer.Length)
      ensures glCalls == []
    {
      var f := FlagsOf(mode);
      flags := f;
      vertexSize := VertexSize(f);
      var capacity := Capacity(VertexSize(f), verticesCount);
      buffer := new Float32[capacity](_ => 0);
      position, limit := 0, capacity;
      glCalls := [];
    }

    method SetVertices(src: seq<Float32>, offset: int, length: int) returns (outcome: PutOutcome)
      requires Valid()
      modifies this`position, this`limit, buffer
      ensures Valid()
      ensures (outcome, State()) == Fill(old(State()), src, offset, length)
    {
      // clear()
      position, limit := 0, buffer.Length;
      // put(src, offset, length)
      if offset < 0 || length < 0 || offset + length > |src| {
        return IndexOutOfBounds;
      }
      if length > limit - position {
        return BufferOverflow;
      }
      forall i | 0 <= i < length {
        buffer[i] := src[offset + i];
      }
      position := position + length;
      // flip()
      limit, position := position, 0;
      outcome := Done;
      assert buffer[..] == src[offset..offset + length] + old(buffer[..])[length..];
    }

    method Draw(primitive: int, first: int, count: int) returns (ok: bool)
      requires Valid()
      modifies this`position, this`glCalls
      ensures Valid()
      ensures var r := BindAndDraw(Bindings(flags), vertexSize, limit, old(position), primitive, first, count);
        ok == r.ok && position == r.position && glCalls == old(glCalls) + r.calls
    {
      ghost var colorPart := if flags.hasColor then [Binding(Color, COLOR_COMPONENT_COUNT, POSITION_COMPONENT_COUNT)] else [];
      ghost var textureOffset := POSITION_COMPONENT_COUNT + (if flags.hasColor then COLOR_COMPONENT_COUNT else 0);
      ghost var texturePart :=
        if flags.hasTextCoordinates
        then [Binding(TextureCoordinates, TEXTURE_COORDINATES_COMPONENT_COUNT, textureOffset)]
        else [];
      assert Bindings(flags) == [Binding(Position, POSITION_COMPONENT_COUNT, 0)] + (colorPart + texturePart);
      BindAndDrawCons(Binding(Position, POSITION_COMPONENT_COUNT, 0), colorPart + texturePart,
                      vertexSize, limit, position, primitive, first, count);

      // position data, always at float 0
      position := 0;
      glCalls := glCalls + [VertexAttribPointer(Position, POSITION_COMPONENT_COUNT, vertexSize, 0),
                            EnableVertexAttribArray(Position)];
      if flags.hasColor {
        assert colorPart + texturePart == [Binding(Color, COLOR_COMPONENT_COUNT, POSITION_COMPONENT_COUNT)] + texturePart;
        BindAndDrawCons(Binding(Color, COLOR_COMPONENT_COUNT, POSITION_COMPONENT_COUNT), texturePart,
                        vertexSize, limit, position, primitive, first, count);
        if POSITION_COMPONENT_COUNT > limit {
          return false;
        }
        position := POSITION_COMPONENT_COUNT;
        glCalls := glCalls + [VertexAttribPointer(Color, COLOR_COMPONENT_COUNT, vertexSize, position),
                              EnableVertexAttribArray(Color)];
      } else {
        assert colorPart + texturePart == texturePart;
      }
      if flags.hasTextCoordinates {
        assert texturePart == [Binding(TextureCoordinates, TEXTURE_COORDINATES_COMPONENT_COUNT, textureOffset)] + [];
        BindAndDrawCons(Binding(TextureCoordinates, TEXTURE_COORDINATES_COMPONENT_COUNT, textureOffset), [],
                        vertexSize, limit, position, primitive, first, count);
        var offset := POSITION_COMPONENT_COUNT + (if flags.hasColor then COLOR_COMPONENT_COUNT else 0);
        if offset > limit {
          return false;
        }
        position := offset;
        glCalls := glCalls + [VertexAttribPointer(TextureCoordinates, TEXTURE_COORDINATES_COMPONENT_COUNT, vertexSize, position),
                              EnableVertexAttribArray(TextureCoordinates)];
      }
      glCalls := glCalls + [DrawArrays(primitive, first, count)];
      ok := true;
    }
  }
}
