/**
 * The byte layout of one vertex record: attribute types with their byte
 * sizes and component counts, each attribute's byte offset inside the
 * record and the record's stride.
 */
module Layout {

  /** The attribute types, in declaration order (None = 0 … Bool = 11). */
  datatype ShaderDataType =
    | None | Float | Float2 | Float3 | Float4
    | Int | Int2 | Int3 | Int4 | Mat3 | Mat4 | Bool
  {
    predicate IsMatrix() { this == Mat3 || this == Mat4 }
  }

  /** Bytes taken by one attribute of type `t` (`shaderDataTypeToSize`). */
  function ShaderDataTypeToSize(t: ShaderDataType): (r: nat)
    ensures r == 0 <==> t == None
    ensures ComponentCount(t) <= r <= 64
  {
    match t
    case Float => 4
    case Float2 => 4 * 2
    case Float3 => 4 * 3
    case Float4 => 4 * 4
    case Int => 4
    case Int2 => 4 * 2
    case Int3 => 4 * 3
    case Int4 => 4 * 4
    case Mat3 => 4 * 3 * 3
    case Mat4 => 4 * 4 * 4
    case Bool => 1
    case None => 0
  }

  /** Components per attribute slot (`getComponentCount`): a matrix counts one row. */
  function ComponentCount(t: ShaderDataType): (r: nat)
    ensures r == 0 <==> t == None
    ensures r <= 4
  {
    match t
    case Float => 1
    case Float2 => 2
    case Float3 => 3
    case Float4 => 4
    case Mat3 => 3
    case Mat4 => 4
    case Int => 1
    case Int2 => 2
    case Int3 => 3
    case Int4 => 4
    case Bool => 1
    case None => 0
  }

  /** Bytes of one scalar component: 4 for a float or an int, 1 for a bool. */
  function ScalarBytes(t: ShaderDataType): nat {
    if t == None then 0 else if t == Bool then 1 else 4
  }

  /** Every size is scalar bytes times components, times rows for a matrix. */
  lemma SizeIsScalarTimesShape(t: ShaderDataType)
    ensures ShaderDataTypeToSize(t) ==
      ScalarBytes(t) * ComponentCount(t) * (if t.IsMatrix() then ComponentCount(t) else 1)
    ensures ComponentCount(t) == 0 <==> t == None
  {
  }

  /** One attribute of a layout (`BufferElement`). */
  datatype BufferElement = BufferElement(
    dataType: ShaderDataType, name: string, size: nat, offset: nat, normalized: bool)
  {
    function GetComponentCount(): nat { ComponentCount(dataType) }
  }

  /** The `BufferElement` constructor: offset 0, size from the type, not normalized by default. */
  function NewBufferElement(t: ShaderDataType, name: string, normalized: bool := false): (e: BufferElement)
    ensures e.dataType == t && e.name == name && e.normalized == normalized
    ensures e.offset == 0 && e.size == ShaderDataTypeToSize(t)
    ensures e.GetComponentCount() == ComponentCount(t)
  {
    BufferElement(t, name, ShaderDataTypeToSize(t), 0, normalized)
  }

  /** Sum of the sizes of `es`. */
  function TotalSize(es: seq<BufferElement>): nat {
    if es == [] then 0 else TotalSize(es[..|es| - 1]) + es[|es| - 1].size
  }

  /** Each element's offset is the total size of the elements before it. */
  ghost predicate OffsetsArePrefixSums(es: seq<BufferElement>) {
    forall i :: 0 <= i < |es| ==> es[i].offset == TotalSize(es[..i])
  }

  /** `es` with every offset replaced by the prefix sum of the sizes before it. */
  function WithOffsets(es: seq<BufferElement>): (r: seq<BufferElement>)
    ensures |r| == |es|
    ensures forall i :: 0 <= i < |es| ==>
      r[i] == es[i].(offset := r[i].offset) && r[i].offset == TotalSize(es[..i])
  {
    seq(|es|, i requires 0 <= i < |es| => es[i].(offset := TotalSize(es[..i])))
  }

  /** Only the sizes matter to TotalSize. */
  lemma {:induction false} TotalSizeOfSameSizes(a: seq<BufferElement>, b: seq<BufferElement>)
    requires |a| == |b|
    requires forall i :: 0 <= i < |a| ==> a[i].size == b[i].size
    ensures TotalSize(a) == TotalSize(b)
  {
    if a != [] {
      TotalSizeOfSameSizes(a[..|a| - 1], b[..|b| - 1]);
    }
  }

  /** The offsets a layout assigns are prefix sums, and they leave the stride unchanged. */
  lemma WithOffsetsIsLaidOut(es: seq<BufferElement>)
    ensures OffsetsArePrefixSums(WithOffsets(es))
    ensures TotalSize(WithOffsets(es)) == TotalSize(es)
  {
    var r := WithOffsets(es);
    forall i | 0 <= i < |es| ensures r[i].offset == TotalSize(r[..i]) {
      TotalSizeOfSameSizes(es[..i], r[..i]);
    }
    TotalSizeOfSameSizes(es, r);
  }

  /** A longer prefix never has a smaller total size. */
  lemma {:induction false} TotalSizeOfPrefix(es: seq<BufferElement>, i: nat, j: nat)
    requires i <= j <= |es|
    ensures TotalSize(es[..i]) <= TotalSize(es[..j])
    decreases j - i
  {
    if i < j {
      TotalSizeOfPrefix(es, i, j - 1);
      assert es[..j][..j - 1] == es[..j - 1];
    }
  }

  /** In a laid-out sequence offsets never decrease and every element ends within the stride. */
  lemma OffsetsWithinStride(es: seq<BufferElement>, i: nat, j: nat)
    requires OffsetsArePrefixSums(es)
    requires i <= j < |es|
    ensures es[i].offset <= es[j].offset
    ensures es[j].offset + es[j].size <= TotalSize(es)
  {
    TotalSizeOfPrefix(es, i, j);
    TotalSizeOfPrefix(es, j + 1, |es|);
    assert es[..j + 1][..j] == es[..j];
    assert es[..|es|] == es;
  }

  /** `BufferLayout`: the elements with their offsets assigned, and the stride. */
  class BufferLayout {
    var elements: seq<BufferElement>
    var stride: nat

    ghost predicate Valid()
      reads this
    {
      OffsetsArePrefixSums(elements) && stride == TotalSize(elements)
    }

    /** Walks the elements in order, assigning each the running offset and adding its size to the stride. */
    constructor(elements: seq<BufferElement>)
      ensures this.elements == WithOffsets(elements)
      ensures stride == TotalSize(elements)
      ensures Valid()
    {
      var laid := elements;
      var offset := 0;
      var i := 0;
      while i < |elements|
        invariant 0 <= i <= |elements|
        invariant |laid| == |elements|
        invariant forall k :: 0 <= k < i ==> laid[k] == elements[k].(offset := TotalSize(elements[..k]))
        invariant forall k :: i <= k < |elements| ==> laid[k] == elements[k]
        invariant offset == TotalSize(elements[..i])
      {
        var element := laid[i];
        laid := laid[i := element.(offset := offset)];
        offset := offset + element.size;
        assert elements[..i + 1][..i] == elements[..i];
        i := i + 1;
      }
      assert elements[..|elements|] == elements;
      WithOffsetsIsLaidOut(elements);
      this.elements := laid;
      this.stride := offset;
    }

    /** `getElements`: every element's offset is the total size of those before it. */
    function GetElements(): (r: seq<BufferElement>)
      reads this
      requires Valid()
      ensures r == elements
      ensures OffsetsArePrefixSums(r)
    {
      elements
    }

    /** `getStride`: the sum of all element sizes. */
    function GetStride(): (r: nat)
      reads this
      requires Valid()
      ensures r == TotalSize(elements)
      ensures forall i :: 0 <= i < |elements| ==> elements[i].offset + elements[i].size <= r
    {
      forall i | 0 <= i < |elements| ensures elements[i].offset + elements[i].size <= stride {
        OffsetsWithinStride(elements, i, i);
      }
      stride
    }
  }
}
