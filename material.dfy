/**
 * Materials: a material picks the `ub_Material` uniform block out of its
 * shader's reflected block table, and a material instance stages that
 * block's contents in a CPU-side buffer written through a float view.
 */
module Materials {
  import opened Wrappers

  /** The reflected layout of one block member; only its byte offset is used here. */
  datatype UniformInfo = UniformInfo(offset: nat)

  /** The reflected layout of one uniform block: total byte size and members by name. */
  datatype UniformBlockInfo = UniformBlockInfo(size: nat, uniforms: map<string, UniformInfo>)

  /** A linked shader program, seen through its reflected uniform-block table. */
  datatype Shader = Shader(name: string, uniformBlocks: map<string, UniformBlockInfo>)

  const MaterialBlockName: string := "ub_Material"

  /** The exception a typed-array operation throws. */
  datatype MaterialError = RangeError

  /** Map lookup that yields None (`undefined`) for a missing key. */
  function Lookup<K, T>(m: map<K, T>, k: K): (r: Option<T>)
    ensures r.Some? <==> k in m
    ensures r.Some? ==> r.value == m[k]
  {
    if k in m then Some(m[k]) else None
  }

  class Material {
    const shader: Shader
    /** None when the shader declares no `ub_Material` block. */
    const materialInfo: Option<UniformBlockInfo>

    constructor(shader: Shader)
      ensures this.shader == shader
      ensures materialInfo == Lookup(shader.uniformBlocks, MaterialBlockName)
    {
      this.shader := shader;
      materialInfo := Lookup(shader.uniformBlocks, MaterialBlockName);
    }
  }

  /**
   * The index `set` starts writing at: the member's reflected byte offset,
   * used unchanged as a float index, or 0 for an unknown member.
   */
  function WriteStart(info: UniformBlockInfo, name: string): (r: nat)
    ensures name in info.uniforms ==> r == info.uniforms[name].offset
    ensures name !in info.uniforms ==> r == 0
  {
    match Lookup(info.uniforms, name)
    case Some(u) => u.offset
    case None => 0
  }

  /** The floats s with vals written over s[start..start+|vals|]. */
  function Overwrite(s: seq<real>, start: nat, vals: seq<real>): (r: seq<real>)
    requires start + |vals| <= |s|
    ensures |r| == |s|
    ensures forall k :: 0 <= k < |vals| ==> r[start + k] == vals[k]
    ensures forall i :: 0 <= i < |s| && !(start <= i < start + |vals|) ==> r[i] == s[i]
  {
    s[..start] + vals + s[start + |vals|..]
  }

  /**
   * The effect of `new Float32Array(buffer).set(vals, start)` on the floats
   * of a buffer of byteLength bytes: a view needs a byte length divisible
   * by 4, and the data must fit from start on.
   */
  function StagedWrite(s: seq<real>, byteLength: nat, start: nat, vals: seq<real>): (r: Result<seq<real>, MaterialError>)
    requires |s| == byteLength / 4
    ensures r.Failure? <==> byteLength % 4 != 0 || start + |vals| > |s|
    ensures r.Success? ==> r.value == Overwrite(s, start, vals)
  {
    if byteLength % 4 != 0 || start + |vals| > |s| then Failure(RangeError)
    else Success(Overwrite(s, start, vals))
  }

  /** Writing the same values at the same place twice is writing them once. */
  lemma OverwriteIdempotent(s: seq<real>, start: nat, vals: seq<real>)
    requires start + |vals| <= |s|
    ensures Overwrite(Overwrite(s, start, vals), start, vals) == Overwrite(s, start, vals)
  {
  }

  /** Writes to disjoint ranges commute. */
  lemma OverwritesCommute(s: seq<real>, i: nat, a: seq<real>, j: nat, b: seq<real>)
    requires i + |a| <= |s| && j + |b| <= |s|
    requires i + |a| <= j || j + |b| <= i
    ensures Overwrite(Overwrite(s, i, a), j, b) == Overwrite(Overwrite(s, j, b), i, a)
  {
    var l := Overwrite(Overwrite(s, i, a), j, b);
    var r := Overwrite(Overwrite(s, j, b), i, a);
    assert forall k :: 0 <= k < |s| ==> l[k] == r[k] by {
      forall k | 0 <= k < |s|
        ensures l[k] == r[k]
      {
        if i <= k < i + |a| {
          assert l[i + (k - i)] == a[k - i];
        } else if j <= k < j + |b| {
          assert r[j + (k - j)] == b[k - j];
        }
      }
    }
  }

  class MaterialInstance {
    const material: Material
    /** The byte length of the staging buffer. */
    const byteLength: nat
    /** The staging buffer's contents, as the floats of a float view over it. */
    const buffer: array<real>

    /** The instance's material has a block, and the buffer holds its floats. */
    ghost predicate Valid() {
      material.materialInfo.Some? && buffer.Length == byteLength / 4
    }

    /** A zero-filled staging buffer of the block's byte size. */
    constructor(material: Material)
      requires material.materialInfo.Some?
      ensures this.material == material && byteLength == material.materialInfo.value.size
      ensures fresh(buffer) && buffer.Length == byteLength / 4 && Valid()
      ensures forall i :: 0 <= i < buffer.Length ==> buffer[i] == 0.0
    {
      this.material := material;
      byteLength := material.materialInfo.value.size;
      buffer := new real[material.materialInfo.value.size / 4](_ => 0.0);
    }

    /** Stage vals for the block member called name. */
    method Set(name: string, vals: seq<real>) returns (r: Outcome<MaterialError>)
      requires Valid()
      modifies buffer
      ensures var w := StagedWrite(old(buffer[..]), byteLength, WriteStart(material.materialInfo.value, name), vals);
        && (r.Pass? <==> w.Success?)
        && (if w.Success? then buffer[..] == w.value else buffer[..] == old(buffer[..]))
        && (w.Failure? ==> r == Fail(w.error))
    {
      var start := WriteStart(material.materialInfo.value, name);
      if byteLength % 4 != 0 || start + |vals| > buffer.Length {
        return Fail(RangeError);
      }
      for k := 0 to |vals|
        invariant forall i :: 0 <= i < buffer.Length ==>
          buffer[i] == if start <= i < start + k then vals[i - start] else old(buffer[i])
      {
        buffer[start + k] := vals[k];
      }
      assert buffer[..] == Overwrite(old(buffer[..]), start, vals);
      return Pass;
    }
  }
}
