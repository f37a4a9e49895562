/**
 * Vertex arrays (src/Renderer/VertexArray.cpp): attaching a vertex buffer
 * hands each element of its layout one or more consecutive attribute slots
 * and records the `glVertexAttrib*Pointer` call made for each slot.
 */
module VertexArrays {
  import opened Buffer
  import Common

  /** The OpenGL enumerants the base-type table returns. */
  const GL_FLOAT: nat := 0x1406
  const GL_INT: nat := 0x1404
  const GL_BOOL: nat := 0x8B56

  /**
   * `ShaderDataTypeToOpenGLBaseType`: float vectors and matrices are
   * GL_FLOAT, int vectors GL_INT, Bool GL_BOOL; `None` passes the skipped
   * assert and gets 0.
   */
  function ShaderDataTypeToOpenGLBaseType(t: ShaderDataType): (g: nat)
    ensures g == GL_FLOAT <==> IsFloatVector(t) || IsMatrix(t)
    ensures g == GL_INT <==> IsIntVector(t)
    ensures g == GL_BOOL <==> t == Bool
    ensures g == 0 <==> t == None
  {
    match t
    case Float => GL_FLOAT
    case Float2 => GL_FLOAT
    case Float3 => GL_FLOAT
    case Float4 => GL_FLOAT
    case Mat3 => GL_FLOAT
    case Mat4 => GL_FLOAT
    case Int => GL_INT
    case Int2 => GL_INT
    case Int3 => GL_INT
    case Int4 => GL_INT
    case Bool => GL_BOOL
    case None => 0
  }

  /**
   * One attribute slot as the GL calls leave it: `integer` says the slot was
   * set with `glVertexAttribIPointer` (which takes no normalisation flag),
   * `instanced` that `glVertexAttribDivisor(index, 1)` was called on it.
   */
  datatype AttribPointer = AttribPointer(
    index: nat, components: nat, baseType: nat, normalized: bool,
    integer: bool, stride: nat, offset: nat, instanced: bool)

  /** A vertex buffer is its GL id and its layout; an index buffer its GL id and count. */
  datatype VertexBuffer = VertexBuffer(id: nat, layout: BufferLayout)
  datatype IndexBuffer = IndexBuffer(id: nat, count: nat)

  /** A `VertexArray`: the next free attribute slot and the buffers attached to it. */
  datatype VertexArray = VertexArray(
    nextIndex: nat, vertexBuffers: seq<VertexBuffer>, indexBuffer: Common.Option<IndexBuffer>)

  /** A freshly constructed vertex array: slot 0 is next, nothing attached. */
  const NEW_VERTEX_ARRAY: VertexArray := VertexArray(0, [], Common.None)

  /** The slots an element of the type takes: a column per matrix column, one otherwise, none for `None`. */
  function SlotCount(t: ShaderDataType): nat
  {
    if IsMatrix(t) then ComponentCount(t) else if t == None then 0 else 1
  }

  /** The slots a run of elements takes. */
  function Slots(elements: seq<BufferElement>): nat
  {
    if |elements| == 0 then 0 else SlotCount(elements[0].type_) + Slots(elements[1..])
  }

  /** The matrix column `i` of an element whose columns have `count` floats each. */
  function Column(e: BufferElement, stride: nat, index: nat, count: nat, i: nat): AttribPointer
  {
    AttribPointer(index + i, count, GL_FLOAT, e.normalized, false, stride, e.offset + COMPONENT_BYTES * count * i, true)
  }

  /**
   * The slots one element gets, starting at `index` (the body of the loop in
   * `addVertexBuffer`). The slots are consecutive from `index`; only the float
   * path forwards the normalisation flag; only matrix columns are instanced.
   */
  function ElementPointers(e: BufferElement, stride: nat, index: nat): (ps: seq<AttribPointer>)
    ensures |ps| == SlotCount(e.type_)
    ensures forall k :: 0 <= k < |ps| ==> ps[k].index == index + k && ps[k].stride == stride
    ensures forall k :: 0 <= k < |ps| ==> ps[k].baseType == ShaderDataTypeToOpenGLBaseType(e.type_)
    ensures forall k :: 0 <= k < |ps| ==> (ps[k].integer <==> IsIntVector(e.type_) || e.type_ == Bool)
    ensures forall k :: 0 <= k < |ps| ==> ps[k].normalized == (e.normalized && !ps[k].integer)
    ensures forall k :: 0 <= k < |ps| ==> (ps[k].instanced <==> IsMatrix(e.type_))
    ensures forall k :: 0 <= k < |ps| ==> ps[k].components == ComponentCount(e.type_)
    ensures !IsMatrix(e.type_) ==> forall k :: 0 <= k < |ps| ==> ps[k].offset == e.offset
    ensures IsMatrix(e.type_) ==> forall k :: 0 <= k < |ps| ==>
      ps[k].offset == e.offset + COMPONENT_BYTES * ComponentCount(e.type_) * k
  {
    var t := e.type_;
    if IsFloatVector(t) then
      [AttribPointer(index, ComponentCount(t), ShaderDataTypeToOpenGLBaseType(t), e.normalized, false, stride, e.offset, false)]
    else if IsIntVector(t) || t == Bool then
      [AttribPointer(index, ComponentCount(t), ShaderDataTypeToOpenGLBaseType(t), false, true, stride, e.offset, false)]
    else if IsMatrix(t) then
      var count := ComponentCount(t);
      seq(count, i requires 0 <= i < count => Column(e, stride, index, count, i))
    else
      []
  }

  /**
   * The slots a whole layout gets, starting at `index`: each element's slots
   * in element order, all consecutive, every one carrying the layout stride
   * and keeping the per-element properties of `ElementPointers`.
   */
  function LayoutPointers(elements: seq<BufferElement>, stride: nat, index: nat): (ps: seq<AttribPointer>)
    ensures |ps| == Slots(elements)
    ensures forall k :: 0 <= k < |ps| ==> ps[k].index == index + k && ps[k].stride == stride
    ensures forall k :: 0 <= k < |ps| ==> ps[k].normalized ==> !ps[k].integer
    ensures forall k :: 0 <= k < |ps| ==> (ps[k].integer <==> ps[k].baseType != GL_FLOAT)
    decreases |elements|
  {
    if |elements| == 0 then []
    else ElementPointers(elements[0], stride, index) + LayoutPointers(elements[1..], stride, index + SlotCount(elements[0].type_))
  }

  /**
   * `addVertexBuffer`: the buffer's layout must have elements. The layout's
   * slots are handed out from the next free one, the next free slot moves
   * past them, and the buffer is appended to the attached ones; the index
   * buffer is untouched. The result pairs the new array with the slots set.
   */
  function AddVertexBuffer(va: VertexArray, vb: VertexBuffer): (r: (VertexArray, seq<AttribPointer>))
    requires |vb.layout.elements| > 0
    ensures r.0.nextIndex == va.nextIndex + |r.1|
    ensures |r.1| == Slots(vb.layout.elements)
    ensures forall k :: 0 <= k < |r.1| ==> r.1[k].index == va.nextIndex + k && r.1[k].stride == vb.layout.stride
    ensures r.0.vertexBuffers == va.vertexBuffers + [vb]
    ensures r.0.indexBuffer == va.indexBuffer
  {
    var ps := LayoutPointers(vb.layout.elements, vb.layout.stride, va.nextIndex);
    (va.(nextIndex := va.nextIndex + |ps|, vertexBuffers := va.vertexBuffers + [vb]), ps)
  }

  /** `setIndexBuffer`: the index buffer is replaced, the slots and vertex buffers are not. */
  function SetIndexBuffer(va: VertexArray, ib: IndexBuffer): (r: VertexArray)
    ensures r.indexBuffer == Common.Some(ib)
    ensures r.nextIndex == va.nextIndex && r.vertexBuffers == va.vertexBuffers
  {
    va.(indexBuffer := Common.Some(ib))
  }

  /**
   * A matrix element's columns tile the element: column `i` starts
   * `i` columns of floats after the element's offset, each column ends where
   * the next begins, and the last ends exactly at the element's end.
   */
  lemma MatrixColumnsTileElement(e: BufferElement, stride: nat, index: nat)
    requires IsMatrix(e.type_) && e.size == ShaderDataTypeSize(e.type_)
    ensures var ps := ElementPointers(e, stride, index);
      var count := ComponentCount(e.type_);
      && |ps| == count
      && (forall i :: 0 <= i < count ==> ps[i].offset == e.offset + COMPONENT_BYTES * count * i && ps[i].components == count)
      && (forall i :: 0 <= i < count - 1 ==> ps[i].offset + COMPONENT_BYTES * count == ps[i + 1].offset)
      && ps[count - 1].offset + COMPONENT_BYTES * count == e.offset + e.size
  {
    var count := ComponentCount(e.type_);
    var ps := ElementPointers(e, stride, index);
    SizeMatchesComponents(e.type_);
    assert ps[count - 1] == Column(e, stride, index, count, count - 1);
  }

  /** An element of type `None` gets no slot, and the next free slot stays where it was. */
  lemma NoneElementIsSkipped(e: BufferElement, stride: nat, index: nat)
    requires e.type_ == None
    ensures ElementPointers(e, stride, index) == []
  {
  }

  /** Every slot of an element reads inside that element's bytes. */
  lemma ElementPointersReadInsideElement(e: BufferElement, stride: nat, index: nat)
    requires e.size == ShaderDataTypeSize(e.type_)
    ensures forall p :: p in ElementPointers(e, stride, index) ==> e.offset <= p.offset < e.offset + e.size
  {
    var ps := ElementPointers(e, stride, index);
    SizeMatchesComponents(e.type_);
    if IsMatrix(e.type_) {
      var count := ComponentCount(e.type_);
      forall i | 0 <= i < count
        ensures ps[i].offset < e.offset + e.size
      {
        assert ps[i] == Column(e, stride, index, count, i);
        assert COMPONENT_BYTES * count * i < COMPONENT_BYTES * count * count;
      }
    }
  }

  /** Elements whose sizes come from the type table and end within the stride. */
  ghost predicate ElementsFit(elements: seq<BufferElement>, stride: nat)
  {
    forall e :: e in elements ==> e.size == ShaderDataTypeSize(e.type_) && e.offset + e.size <= stride
  }

  /** When every element fits in the stride, every slot of the layout reads inside the vertex. */
  lemma {:induction false} LayoutPointersReadInsideVertex(elements: seq<BufferElement>, stride: nat, index: nat)
    requires ElementsFit(elements, stride)
    ensures forall p :: p in LayoutPointers(elements, stride, index) ==> p.offset < stride
    decreases |elements|
  {
    if |elements| > 0 {
      ElementPointersReadInsideElement(elements[0], stride, index);
      assert ElementsFit(elements[1..], stride) by {
        forall e | e in elements[1..] ensures e in elements { }
      }
      LayoutPointersReadInsideVertex(elements[1..], stride, index + SlotCount(elements[0].type_));
    }
  }

  /**
   * Two buffers attached one after the other get disjoint runs of slots: the
   * second run starts where the first ended.
   */
  lemma SuccessiveBuffersUseDisjointSlots(va: VertexArray, first: VertexBuffer, second: VertexBuffer)
    requires |first.layout.elements| > 0 && |second.layout.elements| > 0
    ensures var (va1, ps1) := AddVertexBuffer(va, first);
      var (va2, ps2) := AddVertexBuffer(va1, second);
      && (forall i, j :: 0 <= i < |ps1| && 0 <= j < |ps2| ==> ps1[i].index < ps2[j].index)
      && va2.nextIndex == va.nextIndex + |ps1| + |ps2|
      && va2.vertexBuffers == va.vertexBuffers + [first, second]
  {
  }

  /** The sphere's vertex buffer: a laid-out `{Float3, Float3, Float2}` layout. */
  function SphereBuffer(id: nat): VertexBuffer
  {
    VertexBuffer(id, BufferLayout([BufferElement(Float3, 12, 0, false), BufferElement(Float3, 12, 12, false),
      BufferElement(Float2, 8, 24, false)], 32))
  }

  /**
   * Attaching the sphere's buffer to a new vertex array uses slots 0, 1, 2
   * for position, normal and uv, at offsets 0, 12, 24 with stride 32, all
   * GL_FLOAT, none normalised or instanced.
   */
  lemma SphereBufferUsesFirstThreeSlots(id: nat)
    ensures var (va, ps) := AddVertexBuffer(NEW_VERTEX_ARRAY, SphereBuffer(id));
      && va.nextIndex == 3
      && ps == [AttribPointer(0, 3, GL_FLOAT, false, false, 32, 0, false),
                AttribPointer(1, 3, GL_FLOAT, false, false, 32, 12, false),
                AttribPointer(2, 2, GL_FLOAT, false, false, 32, 24, false)]
  {
    var es := SphereBuffer(id).layout.elements;
    assert es[1..][1..][1..] == [];
  }
}
