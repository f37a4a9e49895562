/**
 * Vertex-buffer layouts (src/Renderer/Buffer.h): the byte size and component
 * count of each shader data type, buffer elements, and the pass that gives
 * every element of a layout its byte offset and the layout its stride.
 */
module Buffer {

  /** `ShaderDataType`, in declaration order. */
  datatype ShaderDataType =
    | None | Float | Float2 | Float3 | Float4 | Mat3 | Mat4 | Int | Int2 | Int3 | Int4 | Bool

  predicate IsFloatVector(t: ShaderDataType)
  {
    t == Float || t == Float2 || t == Float3 || t == Float4
  }

  predicate IsIntVector(t: ShaderDataType)
  {
    t == Int || t == Int2 || t == Int3 || t == Int4
  }

  predicate IsMatrix(t: ShaderDataType)
  {
    t == Mat3 || t == Mat4
  }

  /** `sizeof(float)`, the width of one float or int component in bytes. */
  const COMPONENT_BYTES: nat := 4

  /**
   * `ShaderDataTypeSize`: the bytes one element of the type takes. `None`
   * falls through the switch to the failing assert, which a release build
   * skips, and gets 0.
   */
  function ShaderDataTypeSize(t: ShaderDataType): (n: nat)
    ensures n == 0 <==> t == None
  {
    match t
    case Float => 4
    case Float2 => 4 * 2
    case Float3 => 4 * 3
    case Float4 => 4 * 4
    case Mat3 => 4 * 3 * 3
    case Mat4 => 4 * 4 * 4
    case Int => 4
    case Int2 => 4 * 2
    case Int3 => 4 * 3
    case Int4 => 4 * 4
    case Bool => 1
    case None => 0
  }

  /**
   * `BufferElement::getComponentCount`: components of a vector, columns of a
   * matrix, 1 for Bool and 0 for `None` (again past the skipped assert).
   */
  function ComponentCount(t: ShaderDataType): (c: nat)
    ensures c <= 4
    ensures c == 0 <==> t == None
  {
    match t
    case Float => 1
    case Float2 => 2
    case Float3 => 3
    case Float4 => 4
    case Mat3 => 3
    case Mat4 => 4
    case Int => 1
    case Int2 => 2
    case Int3 => 3
    case Int4 => 4
    case Bool => 1
    case None => 0
  }

  /**
   * The two tables agree: a float or int vector is its components times four
   * bytes, a matrix is count x count floats, a bool is one byte.
   */
  lemma SizeMatchesComponents(t: ShaderDataType)
    ensures IsFloatVector(t) || IsIntVector(t) ==> ShaderDataTypeSize(t) == COMPONENT_BYTES * ComponentCount(t)
    ensures IsMatrix(t) ==> ShaderDataTypeSize(t) == COMPONENT_BYTES * ComponentCount(t) * ComponentCount(t)
    ensures t == Bool ==> ShaderDataTypeSize(t) == 1 && ComponentCount(t) == 1
  {
  }

  /** `BufferElement`: its type, byte size, byte offset in the vertex, and normalisation flag. */
  datatype BufferElement = BufferElement(type_: ShaderDataType, size: nat, offset: nat, normalized: bool)

  /** The `BufferElement(type, normalized)` constructor: the size from the table, offset 0. */
  function Element(t: ShaderDataType, normalized: bool): (e: BufferElement)
    ensures e.type_ == t && e.normalized == normalized
    ensures e.size == ShaderDataTypeSize(t) && e.offset == 0
  {
    BufferElement(t, ShaderDataTypeSize(t), 0, normalized)
  }

  /** The total size of a run of elements. */
  function SizeSum(elements: seq<BufferElement>): nat
  {
    if |elements| == 0 then 0 else SizeSum(elements[..|elements| - 1]) + elements[|elements| - 1].size
  }

  /** A `BufferLayout`: its elements (offsets filled in) and its stride. */
  datatype BufferLayout = BufferLayout(elements: seq<BufferElement>, stride: nat)

  /** The default `BufferLayout()`: no elements, stride 0. */
  const EMPTY_LAYOUT: BufferLayout := BufferLayout([], 0)

  /** A layout whose offsets are the sizes of the elements before each one, and whose stride is the total. */
  ghost predicate IsLaidOut(layout: BufferLayout)
  {
    && (forall i :: 0 <= i < |layout.elements| ==> layout.elements[i].offset == SizeSum(layout.elements[..i]))
    && layout.stride == SizeSum(layout.elements)
  }

  /**
   * `CalculateOffsetsAndStride`: each element's offset is the running sum of
   * the sizes before it, and the stride the sum of all sizes. Nothing but the
   * offsets changes.
   */
  method CalculateOffsetsAndStride(elements: seq<BufferElement>) returns (laidOut: seq<BufferElement>, stride: nat)
    ensures |laidOut| == |elements|
    ensures forall i :: 0 <= i < |elements| ==> laidOut[i] == elements[i].(offset := SizeSum(elements[..i]))
    ensures stride == SizeSum(elements)
    ensures IsLaidOut(BufferLayout(laidOut, stride))
  {
    var offset := 0;
    stride := 0;
    laidOut := [];
    for i := 0 to |elements|
      invariant |laidOut| == i
      invariant offset == stride == SizeSum(elements[..i])
      invariant forall j :: 0 <= j < i ==> laidOut[j] == elements[j].(offset := SizeSum(elements[..j]))
    {
      laidOut := laidOut + [elements[i].(offset := offset)];
      assert elements[..i + 1][..i] == elements[..i];
      offset := offset + elements[i].size;
      stride := stride + elements[i].size;
    }
    assert elements[..|elements|] == elements;
    SameSizesSameSum(laidOut, elements);
    forall i | 0 <= i < |laidOut|
      ensures laidOut[i].offset == SizeSum(laidOut[..i])
    {
      SameSizesSameSum(laidOut[..i], elements[..i]);
    }
  }

  /** Only sizes count towards a sum: runs with equal sizes have equal sums. */
  lemma {:induction false} SameSizesSameSum(a: seq<BufferElement>, b: seq<BufferElement>)
    requires |a| == |b|
    requires forall i :: 0 <= i < |a| ==> a[i].size == b[i].size
    ensures SizeSum(a) == SizeSum(b)
    decreases |a|
  {
    if |a| > 0 {
      SameSizesSameSum(a[..|a| - 1], b[..|b| - 1]);
    }
  }

  /** Summing a prefix never exceeds summing a longer one. */
  lemma {:induction false} PrefixSumGrows(elements: seq<BufferElement>, i: nat, j: nat)
    requires i <= j <= |elements|
    ensures SizeSum(elements[..i]) <= SizeSum(elements[..j])
    decreases j - i
  {
    if i < j {
      PrefixSumGrows(elements, i, j - 1);
      assert elements[..j][..j - 1] == elements[..j - 1];
    }
  }

  /**
   * In a laid-out layout the elements tile the vertex: the first starts at 0,
   * each starts where the previous ends, and every element ends within the
   * stride (the last exactly at it).
   */
  lemma LaidOutElementsTileStride(layout: BufferLayout)
    requires IsLaidOut(layout)
    ensures 0 < |layout.elements| ==> layout.elements[0].offset == 0
    ensures forall i :: 0 <= i < |layout.elements| - 1 ==>
      layout.elements[i + 1].offset == layout.elements[i].offset + layout.elements[i].size
    ensures forall i :: 0 <= i < |layout.elements| ==>
      layout.elements[i].offset + layout.elements[i].size <= layout.stride
    ensures 0 < |layout.elements| ==>
      layout.elements[|layout.elements| - 1].offset + layout.elements[|layout.elements| - 1].size == layout.stride
  {
    var es := layout.elements;
    forall i | 0 <= i < |es|
      ensures es[i].offset + es[i].size == SizeSum(es[..i + 1])
    {
      SumOfOneMore(es, i);
    }
    forall i | 0 <= i < |es|
      ensures es[i].offset + es[i].size <= layout.stride
    {
      SumOfOneMore(es, i);
      PrefixSumGrows(es, i + 1, |es|);
      assert es[..|es|] == es;
    }
    assert es[..|es|] == es;
  }

  /** Extending a prefix by one element adds that element's size. */
  lemma SumOfOneMore(es: seq<BufferElement>, i: nat)
    requires i < |es|
    ensures SizeSum(es[..i + 1]) == SizeSum(es[..i]) + es[i].size
  {
    assert es[..i + 1][..i] == es[..i];
  }

  /** The default layout is laid out, with stride 0. */
  lemma EmptyLayoutHasZeroStride()
    ensures IsLaidOut(EMPTY_LAYOUT) && EMPTY_LAYOUT.stride == 0
  {
  }

  /**
   * The sphere's layout `{Float3, Float3, Float2}` (position, normal, uv)
   * gets offsets 0, 12 and 24 and stride 32.
   */
  lemma SphereLayoutOffsets()
    ensures var es := [Element(Float3, false), Element(Float3, false), Element(Float2, false)];
      SizeSum(es[..0]) == 0 && SizeSum(es[..1]) == 12 && SizeSum(es[..2]) == 24 && SizeSum(es) == 32
  {
    var es := [Element(Float3, false), Element(Float3, false), Element(Float2, false)];
    assert es[..1][..0] == es[..0];
    assert es[..2][..1] == es[..1];
    assert es[..3] == es;
    assert es[..3][..2] == es[..2];
  }
}
