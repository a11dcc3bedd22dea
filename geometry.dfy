/**
 * SvrGeometry: a mesh's GL buffer names and counts, its optional copy of
 * the index data, and the wireframe built from another mesh by turning
 * every triangle into its three edges.  The GL calls themselves are not
 * modelled; the names glGen* hands out are parameters.
 */
module Geometry {

  /** The six line indices of triangle t of an index buffer: a-b, b-c, c-a. */
  function TriangleEdges(indices: seq<nat>, t: nat): (r: seq<nat>)
    requires 3 * t + 3 <= |indices|
    ensures |r| == 6
  {
    var a, b, c := indices[3 * t], indices[3 * t + 1], indices[3 * t + 2];
    [a, b, b, c, c, a]
  }

  /** The line list of the first n triangles, in triangle order. */
  function Wireframe(indices: seq<nat>, n: nat): (r: seq<nat>)
    requires 3 * n <= |indices|
    ensures |r| == 6 * n
  {
    if n == 0 then [] else Wireframe(indices, n - 1) + TriangleEdges(indices, n - 1)
  }

  /** Entries 6t to 6t+5 of the line list are the edges of triangle t. */
  lemma {:induction false} WireframeEdges(indices: seq<nat>, n: nat, t: nat)
    requires 3 * n <= |indices| && t < n
    ensures Wireframe(indices, n)[6 * t..6 * t + 6] == TriangleEdges(indices, t)
  {
    if t < n - 1 {
      WireframeEdges(indices, n - 1, t);
      assert Wireframe(indices, n)[..6 * (n - 1)] == Wireframe(indices, n - 1);
    }
  }

  /** Every index of the line list is an index of one of the triangles. */
  lemma {:induction false} WireframeFromInput(indices: seq<nat>, n: nat)
    requires 3 * n <= |indices|
    ensures forall i :: 0 <= i < |Wireframe(indices, n)| ==> Wireframe(indices, n)[i] in indices[..3 * n]
  {
    if n > 0 {
      WireframeFromInput(indices, n - 1);
      var w := Wireframe(indices, n);
      forall i | 0 <= i < |w|
        ensures w[i] in indices[..3 * n]
      {
        if i < 6 * (n - 1) {
          assert w[i] == Wireframe(indices, n - 1)[i];
          assert w[i] in indices[..3 * (n - 1)];
        } else {
          var k := i - 6 * (n - 1);
          assert w[i] == TriangleEdges(indices, n - 1)[k];
          assert indices[3 * (n - 1)] == indices[..3 * n][3 * (n - 1)];
          assert indices[3 * (n - 1) + 1] == indices[..3 * n][3 * (n - 1) + 1];
          assert indices[3 * (n - 1) + 2] == indices[..3 * n][3 * (n - 1) + 2];
        }
      }
    }
  }

  /** Every vertex of every triangle is an end of some line. */
  lemma WireframeCoversTriangles(indices: seq<nat>, n: nat, j: nat)
    requires 3 * n <= |indices| && j < 3 * n
    ensures indices[j] in Wireframe(indices, n)
  {
    var t := j / 3;
    WireframeEdges(indices, n, t);
    var w := Wireframe(indices, n);
    assert w[6 * t..6 * t + 6][2 * (j % 3)] == w[6 * t + 2 * (j % 3)];
  }

  class SvrGeometry {
    var vbId: nat
    var ibId: nat
    var vaoId: nat
    var vertexCount: int
    var indexCount: int
    var indexBuffer: array?<nat>

    /** A new geometry has no GL objects, no counts and no copy of its indices. */
    constructor ()
      ensures vbId == 0 && ibId == 0 && vaoId == 0 && vertexCount == 0 && indexCount == 0 && indexBuffer == null
    {
      vbId, ibId, vaoId := 0, 0, 0;
      vertexCount, indexCount := 0, 0;
      indexBuffer := null;
    }

    /**
     * Initialize: the vertex buffer, index buffer and vertex array get the
     * names given, the counts are recorded, and with doCopy the indices
     * are kept in a buffer of the geometry's own.
     */
    method Initialize(indices: array<nat>, nIndices: int, nVertices: int, doCopy: bool, newVb: nat, newIb: nat, newVao: nat)
      requires doCopy ==> 0 <= nIndices <= indices.Length
      modifies this
      ensures vbId == newVb && ibId == newIb && vaoId == newVao
      ensures vertexCount == nVertices && indexCount == nIndices
      ensures !doCopy ==> indexBuffer == old(indexBuffer)
      ensures doCopy ==> indexBuffer != null && fresh(indexBuffer) && indexBuffer[..] == indices[..nIndices]
    {
      vbId, ibId, vaoId := newVb, newIb, newVao;
      vertexCount := nVertices;
      indexCount := nIndices;
      if doCopy {
        var copy := new nat[nIndices];
        var i := 0;
        while i < nIndices
          invariant 0 <= i <= nIndices
          invariant copy[..i] == indices[..i]
          modifies copy
        {
          copy[i] := indices[i];
          i := i + 1;
        }
        indexBuffer := copy;
      }
    }

    /**
     * InitializeWireframe: a line list of input's triangles, six indices
     * per triangle, becomes this geometry's index data; a trailing index
     * that makes no whole triangle is dropped.  The line list is returned
     * as the buffer handed to GL.
     */
    method InitializeWireframe(input: SvrGeometry, newVb: nat, newIb: nat, newVao: nat) returns (lines: array<nat>)
      requires input.indexBuffer != null && 0 <= input.indexCount <= input.indexBuffer.Length
      modifies this
      ensures fresh(lines)
      ensures lines[..] == Wireframe(old(input.indexBuffer[..]), old(input.indexCount) / 3)
      ensures indexCount == old(input.indexCount) / 3 * 6 && vertexCount == old(input.vertexCount)
      ensures vbId == newVb && ibId == newIb && vaoId == newVao && indexBuffer == old(indexBuffer)
    {
      var numTriangles := input.indexCount / 3;
      var indexBufferCount := numTriangles * 6;
      lines := new nat[indexBufferCount];
      var src := input.indexBuffer;
      ghost var indices := src[..];
      var i := 0;
      while i < numTriangles
        invariant 0 <= i <= numTriangles
        invariant lines[..6 * i] == Wireframe(indices, i)
        modifies lines
      {
        var a, b, c := src[3 * i], src[3 * i + 1], src[3 * i + 2];
        lines[6 * i] := a;
        lines[6 * i + 1] := b;
        lines[6 * i + 2] := b;
        lines[6 * i + 3] := c;
        lines[6 * i + 4] := c;
        lines[6 * i + 5] := a;
        assert lines[..6 * (i + 1)] == lines[..6 * i] + TriangleEdges(indices, i);
        i := i + 1;
      }
      assert lines[..] == lines[..6 * numTriangles];
      Initialize(lines, indexBufferCount, input.vertexCount, false, newVb, newIb, newVao);
    }

    /** Destroy: the GL names and the counts return to 0; a kept copy of the indices stays. */
    method Destroy()
      modifies this
      ensures vbId == 0 && ibId == 0 && vaoId == 0 && vertexCount == 0 && indexCount == 0
      ensures indexBuffer == old(indexBuffer)
    {
      vbId := 0;
      ibId := 0;
      vaoId := 0;
      vertexCount := 0;
      indexCount := 0;
    }
  }
}
