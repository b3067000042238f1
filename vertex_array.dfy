/**
 * Attribute-slot assignment of a vertex array. The device calls
 * `enableVertexAttribArray` + `vertexAttribPointer` are recorded as one
 * `AttribPointer` entry each in an attribute log.
 */
module VertexArrays {
  import opened Gl
  import opened Layout

  /** `shaderDataTypeToWebGLType`. */
  function ShaderDataTypeToWebGLType(t: ShaderDataType): (r: GlEnum)
    ensures r == NONE <==> t == None
    ensures r == FLOAT || r == INT || r == BOOL || r == NONE
  {
    match t
    case Float => FLOAT
    case Float2 => FLOAT
    case Float3 => FLOAT
    case Float4 => FLOAT
    case Int => INT
    case Int2 => INT
    case Int3 => INT
    case Int4 => INT
    case Mat3 => FLOAT
    case Mat4 => FLOAT
    case Bool => BOOL
    case None => NONE
  }

  /** Float vectors and matrices are FLOAT, int vectors INT, Bool BOOL, and None alone maps to 0. */
  lemma WebGLTypeClasses(t: ShaderDataType)
    ensures ShaderDataTypeToWebGLType(t) == FLOAT <==> t in {Float, Float2, Float3, Float4, Mat3, Mat4}
    ensures ShaderDataTypeToWebGLType(t) == INT <==> t in {Int, Int2, Int3, Int4}
    ensures ShaderDataTypeToWebGLType(t) == BOOL <==> t == Bool
    ensures ShaderDataTypeToWebGLType(t) == NONE <==> t == None
  {
  }

  /** The arguments of one `vertexAttribPointer(index, size, type, normalized, stride, offset)` call. */
  datatype AttribPointer = AttribPointer(
    index: nat, size: nat, glType: GlEnum, normalized: bool, stride: nat, offset: int)

  /** Slots one element takes: one per matrix row, one for any other typed element, none for None. */
  function ElementSlots(e: BufferElement): nat {
    if e.dataType.IsMatrix() then e.GetComponentCount()
    else if e.dataType == None then 0
    else 1
  }

  /** Slots the first j elements of `es` take together. */
  function SlotsBefore(es: seq<BufferElement>, j: nat): nat
    requires j <= |es|
  {
    if j == 0 then 0 else SlotsBefore(es, j - 1) + ElementSlots(es[j - 1])
  }

  /** Slots a whole layout takes. */
  function SlotCount(es: seq<BufferElement>): nat {
    SlotsBefore(es, |es|)
  }

  /** The offset the source gives row i (1-based) of matrix element `e`: backed off by count*4*i bytes. */
  function RowOffset(e: BufferElement, i: nat): int {
    e.offset - e.GetComponentCount() * 4 * i
  }

  /** The calls for rows 1..k of matrix element `e`, the first at slot `first`. */
  function MatrixRows(e: BufferElement, stride: nat, first: nat, k: nat): seq<AttribPointer> {
    if k == 0 then []
    else
      var count := e.GetComponentCount();
      MatrixRows(e, stride, first, k - 1) +
        [AttribPointer(first + k - 1, count, ShaderDataTypeToWebGLType(e.dataType),
                       e.normalized, stride, RowOffset(e, k))]
  }

  /** The calls element `e` produces, starting at slot `first`. */
  function ElementRecords(e: BufferElement, stride: nat, first: nat): seq<AttribPointer> {
    if e.dataType.IsMatrix() then MatrixRows(e, stride, first, e.GetComponentCount())
    else if e.dataType == None then []
    else [AttribPointer(first, e.GetComponentCount(), ShaderDataTypeToWebGLType(e.dataType),
                        e.normalized, stride, e.offset)]
  }

  /** The calls the first j elements of `es` produce, starting at slot `first`. */
  function RecordsBefore(es: seq<BufferElement>, j: nat, stride: nat, first: nat): seq<AttribPointer>
    requires j <= |es|
  {
    if j == 0 then []
    else RecordsBefore(es, j - 1, stride, first) + ElementRecords(es[j - 1], stride, first + SlotsBefore(es, j - 1))
  }

  /** The calls a whole layout produces, starting at slot `first`. */
  function Records(es: seq<BufferElement>, stride: nat, first: nat): seq<AttribPointer> {
    RecordsBefore(es, |es|, stride, first)
  }

  /** Row i (1-based) of a matrix: slot first + i - 1, `count` components, offset backed off by count*4*i. */
  lemma {:induction false} MatrixRowAt(e: BufferElement, stride: nat, first: nat, k: nat, i: nat)
    requires 1 <= i <= k
    ensures |MatrixRows(e, stride, first, k)| == k
    ensures MatrixRows(e, stride, first, k)[i - 1] ==
      AttribPointer(first + i - 1, e.GetComponentCount(), ShaderDataTypeToWebGLType(e.dataType),
                    e.normalized, stride, RowOffset(e, i))
  {
    if i < k {
      MatrixRowAt(e, stride, first, k - 1, i);
    } else if k > 1 {
      MatrixRowAt(e, stride, first, k - 1, k - 1);
    }
  }

  lemma {:induction false} MatrixRowsLength(e: BufferElement, stride: nat, first: nat, k: nat)
    ensures |MatrixRows(e, stride, first, k)| == k
  {
    if k > 0 {
      MatrixRowsLength(e, stride, first, k - 1);
    }
  }

  lemma ElementRecordsLength(e: BufferElement, stride: nat, first: nat)
    ensures |ElementRecords(e, stride, first)| == ElementSlots(e)
  {
    MatrixRowsLength(e, stride, first, e.GetComponentCount());
  }

  /** An element's calls use exactly its slots, numbered consecutively from `first`. */
  lemma ElementRecordsSlots(e: BufferElement, stride: nat, first: nat)
    ensures |ElementRecords(e, stride, first)| == ElementSlots(e)
    ensures forall k :: 0 <= k < ElementSlots(e) ==>
      ElementRecords(e, stride, first)[k].index == first + k &&
      ElementRecords(e, stride, first)[k].size == e.GetComponentCount() &&
      ElementRecords(e, stride, first)[k].stride == stride &&
      ElementRecords(e, stride, first)[k].glType == ShaderDataTypeToWebGLType(e.dataType) &&
      ElementRecords(e, stride, first)[k].normalized == e.normalized
    ensures !e.dataType.IsMatrix() && e.dataType != None ==> ElementRecords(e, stride, first)[0].offset == e.offset
  {
    ElementRecordsLength(e, stride, first);
    if e.dataType.IsMatrix() {
      var c := e.GetComponentCount();
      forall k | 0 <= k < c
        ensures MatrixRows(e, stride, first, c)[k].index == first + k
        ensures MatrixRows(e, stride, first, c)[k].size == c
        ensures MatrixRows(e, stride, first, c)[k].stride == stride
        ensures MatrixRows(e, stride, first, c)[k].glType == ShaderDataTypeToWebGLType(e.dataType)
        ensures MatrixRows(e, stride, first, c)[k].normalized == e.normalized
      {
        MatrixRowAt(e, stride, first, c, k + 1);
      }
    }
  }

  lemma {:induction false} RecordsLength(es: seq<BufferElement>, j: nat, stride: nat, first: nat)
    requires j <= |es|
    ensures |RecordsBefore(es, j, stride, first)| == SlotsBefore(es, j)
  {
    if j > 0 {
      RecordsLength(es, j - 1, stride, first);
      ElementRecordsLength(es[j - 1], stride, first + SlotsBefore(es, j - 1));
    }
  }

  /** The calls of the first j elements take exactly their slots, numbered consecutively from `first`. */
  lemma {:induction false} RecordsSlots(es: seq<BufferElement>, j: nat, stride: nat, first: nat)
    requires j <= |es|
    ensures |RecordsBefore(es, j, stride, first)| == SlotsBefore(es, j)
    ensures forall k :: 0 <= k < |RecordsBefore(es, j, stride, first)| ==>
      RecordsBefore(es, j, stride, first)[k].index == first + k &&
      RecordsBefore(es, j, stride, first)[k].stride == stride
  {
    if j > 0 {
      RecordsSlots(es, j - 1, stride, first);
      ElementRecordsSlots(es[j - 1], stride, first + SlotsBefore(es, j - 1));
    }
  }

  /** The calls of the first i elements are a prefix of the calls of the first j. */
  lemma {:induction false} RecordsOfPrefix(es: seq<BufferElement>, i: nat, j: nat, stride: nat, first: nat)
    requires i <= j <= |es|
    ensures RecordsBefore(es, i, stride, first) <= RecordsBefore(es, j, stride, first)
    ensures SlotsBefore(es, i) <= SlotsBefore(es, j)
    decreases j - i
  {
    if i < j {
      RecordsOfPrefix(es, i, j - 1, stride, first);
    }
  }

  /** Element j's calls sit in the log right after those of the elements before it. */
  lemma RecordsOfElement(es: seq<BufferElement>, stride: nat, first: nat, j: nat)
    requires j < |es|
    ensures SlotsBefore(es, j) + ElementSlots(es[j]) == SlotsBefore(es, j + 1) <= SlotCount(es)
    ensures SlotCount(es) == |Records(es, stride, first)|
    ensures Records(es, stride, first)[SlotsBefore(es, j)..SlotsBefore(es, j + 1)] ==
      ElementRecords(es[j], stride, first + SlotsBefore(es, j))
  {
    var a := RecordsBefore(es, j, stride, first);
    var el := ElementRecords(es[j], stride, first + SlotsBefore(es, j));
    RecordsOfPrefix(es, j + 1, |es|, stride, first);
    RecordsLength(es, j, stride, first);
    RecordsLength(es, |es|, stride, first);
    ElementRecordsLength(es[j], stride, first + SlotsBefore(es, j));
    SliceOfPrefix(Records(es, stride, first), a, el);
  }

  lemma SliceOfPrefix<T>(whole: seq<T>, a: seq<T>, b: seq<T>)
    requires a + b <= whole
    ensures whole[|a|..|a| + |b|] == b
  {
    assert whole[|a|..|a| + |b|] == (a + b)[|a|..];
  }

  /**
   * The row offset formula backs every row off below the element's own offset:
   * row i of a c-component matrix is negative exactly when the element's
   * offset is below c*4*i, so a matrix at the start of a layout has only
   * negative row offsets.
   */
  lemma MatrixRowsPrecedeElement(e: BufferElement, stride: nat, first: nat, i: nat)
    requires e.dataType.IsMatrix()
    requires 1 <= i <= e.GetComponentCount()
    ensures |ElementRecords(e, stride, first)| == e.GetComponentCount()
    ensures ElementRecords(e, stride, first)[i - 1].offset < e.offset
    ensures ElementRecords(e, stride, first)[i - 1].offset < 0 <==> e.offset < e.GetComponentCount() * 4 * i
  {
    MatrixRowAt(e, stride, first, e.GetComponentCount(), i);
  }

  /**
   * The per-element step of `addVertexBuffer`: a matrix element takes one
   * slot per row, any other typed element one slot, None none. Returns the
   * next free slot and the calls made, the first at slot `index0`.
   */
  method EnableElement(element: BufferElement, stride: nat, index0: nat)
    returns (index: nat, calls: seq<AttribPointer>)
    ensures index == index0 + ElementSlots(element)
    ensures calls == ElementRecords(element, stride, index0)
  {
    index, calls := index0, [];
    if element.dataType.IsMatrix() {
      var count := element.GetComponentCount();
      var i := 1;
      while i <= count
        invariant 1 <= i <= count + 1
        invariant index == index0 + (i - 1)
        invariant calls == MatrixRows(element, stride, index0, i - 1)
      {
        calls := calls + [AttribPointer(index, count, ShaderDataTypeToWebGLType(element.dataType),
          element.normalized, stride, RowOffset(element, i))];
        index := index + 1;
        i := i + 1;
      }
    } else if element.dataType != None {
      calls := [AttribPointer(index, element.GetComponentCount(),
        ShaderDataTypeToWebGLType(element.dataType), element.normalized, stride, element.offset)];
      index := index + 1;
    }
  }

  /**
   * The loop of `addVertexBuffer`: walks the elements in order, handing out
   * slots from `first` on. Returns the next free slot and the calls made.
   */
  method EnableAttributes(elements: seq<BufferElement>, stride: nat, first: nat)
    returns (index: nat, calls: seq<AttribPointer>)
    ensures index == first + SlotCount(elements)
    ensures calls == Records(elements, stride, first)
  {
    index, calls := first, [];
    var j := 0;
    while j < |elements|
      invariant 0 <= j <= |elements|
      invariant index == first + SlotsBefore(elements, j)
      invariant calls == RecordsBefore(elements, j, stride, first)
    {
      var next, elementCalls := EnableElement(elements[j], stride, index);
      index, calls := next, calls + elementCalls;
      j := j + 1;
    }
  }

  /** A vertex buffer as far as the vertex array sees it: the layout attached to it. */
  class VertexBuffer {
    var layout: BufferLayout

    /** A new vertex buffer carries the empty layout. */
    constructor()
      ensures fresh(layout) && layout.elements == [] && layout.stride == 0
    {
      layout := new BufferLayout([]);
    }

    method SetLayout(layout: BufferLayout)
      modifies this
      ensures this.layout == layout
    {
      this.layout := layout;
    }
  }

  /** An index buffer, an opaque device object here. */
  class IndexBuffer {
    constructor() {}
  }

  class VertexArray {
    var vertexBuffers: seq<VertexBuffer>
    var vertexBufferIndex: nat
    var indexBuffer: IndexBuffer?
    /** The `vertexAttribPointer` calls issued so far, in order. */
    var attribLog: seq<AttribPointer>

    /** Every slot handed out appears once in the log, in order of assignment. */
    ghost predicate Valid()
      reads this
    {
      |attribLog| == vertexBufferIndex &&
      forall k :: 0 <= k < |attribLog| ==> attribLog[k].index == k
    }

    constructor()
      ensures vertexBuffers == [] && vertexBufferIndex == 0 && indexBuffer == null && attribLog == []
      ensures Valid()
    {
      vertexBuffers := [];
      vertexBufferIndex := 0;
      indexBuffer := null;
      attribLog := [];
    }

    /** Binds the buffer's layout to the next free slots and appends the buffer to the list. */
    method AddVertexBuffer(vertexBuffer: VertexBuffer)
      modifies this
      ensures vertexBuffers == old(vertexBuffers) + [vertexBuffer]
      ensures vertexBufferIndex == old(vertexBufferIndex) + SlotCount(vertexBuffer.layout.elements)
      ensures attribLog == old(attribLog) +
        Records(vertexBuffer.layout.elements, vertexBuffer.layout.stride, old(vertexBufferIndex))
      ensures indexBuffer == old(indexBuffer)
      ensures old(Valid()) ==> Valid()
    {
      var layout := vertexBuffer.layout;
      var next, calls := EnableAttributes(layout.elements, layout.stride, vertexBufferIndex);
      vertexBufferIndex, attribLog := next, attribLog + calls;
      vertexBuffers := vertexBuffers + [vertexBuffer];
      RecordsSlots(layout.elements, |layout.elements|, layout.stride, old(vertexBufferIndex));
    }

    /** `getIndexBuffer`: the index buffer last stored by SetIndexBuffer (null before the first). */
    function GetIndexBuffer(): (r: IndexBuffer?)
      reads this
      ensures r == indexBuffer
    {
      indexBuffer
    }

    /** `setIndexBuffer` replaces the bound index buffer and nothing else. */
    method SetIndexBuffer(indexBuffer: IndexBuffer)
      modifies this
      ensures this.indexBuffer == indexBuffer
      ensures vertexBuffers == old(vertexBuffers) && vertexBufferIndex == old(vertexBufferIndex)
      ensures attribLog == old(attribLog)
    {
      this.indexBuffer := indexBuffer;
    }
  }
}
