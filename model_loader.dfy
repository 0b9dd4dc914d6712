/** Model::load: the OBJ loader's output flattened into one vertex per index
    record and an index buffer that counts up, with no de-duplication. The
    OBJ parser itself is an oracle: its success flag, its warning and error
    text, its attribute arrays and its shapes are parameters. */
module ModelLoading {
  import opened VkTypes

  /** One index record of a shape's mesh (`tinyobj::index_t`), restricted to
      the two fields the loader reads. */
  datatype IndexRecord = IndexRecord(vertexIndex: int, texcoordIndex: int)

  /** A shape, as far as the loader reads it: its mesh's index records. */
  datatype Shape = Shape(indices: seq<IndexRecord>)

  /** `tinyobj::attrib_t`: flat arrays, three reals per position and two per
      texture coordinate. */
  datatype Attributes = Attributes(vertices: seq<real>, texcoords: seq<real>)

  datatype Vec2 = Vec2(x: real, y: real)
  datatype Vec3 = Vec3(x: real, y: real, z: real)

  /** The vertex layout of vertex.h. */
  datatype Vertex = Vertex(pos: Vec3, color: Vec3, texCoord: Vec2)

  /** The loaded mesh: vertices, and `uint32_t` indices into them. */
  datatype Mesh = Mesh(vertices: seq<Vertex>, indices: seq<U32>)

  const White: Vec3 := Vec3(1.0, 1.0, 1.0)

  /** The index records of `shapes`, shape after shape, each shape's in
      order. */
  function AllIndices(shapes: seq<Shape>): seq<IndexRecord>
    decreases |shapes|
  {
    if shapes == [] then [] else AllIndices(shapes[..|shapes| - 1]) + shapes[|shapes| - 1].indices
  }

  /** The number of index records of `shapes`. */
  function TotalIndexCount(shapes: seq<Shape>): nat
    decreases |shapes|
  {
    if shapes == [] then 0 else |shapes[0].indices| + TotalIndexCount(shapes[1..])
  }

  /** The record reads inside the attribute arrays: the position at
      `3 * vertexIndex` and the texture coordinate at `2 * texcoordIndex`,
      each with all its components. */
  predicate RecordInRange(attrib: Attributes, index: IndexRecord) {
    && 0 <= index.vertexIndex && 3 * index.vertexIndex + 2 < |attrib.vertices|
    && 0 <= index.texcoordIndex && 2 * index.texcoordIndex + 1 < |attrib.texcoords|
  }

  predicate IndicesInRange(attrib: Attributes, shapes: seq<Shape>) {
    forall s, i :: 0 <= s < |shapes| && 0 <= i < |shapes[s].indices| ==> RecordInRange(attrib, shapes[s].indices[i])
  }

  /** The vertex the loader builds for one index record: the position
      triple, the texture coordinate with its second component flipped
      (OBJ puts 0 at the bottom of the image, the renderer at the top), and
      white. */
  function VertexFor(attrib: Attributes, index: IndexRecord): (v: Vertex)
    requires RecordInRange(attrib, index)
    ensures v.color == White
    ensures v.pos == Vec3(attrib.vertices[3 * index.vertexIndex], attrib.vertices[3 * index.vertexIndex + 1],
                          attrib.vertices[3 * index.vertexIndex + 2])
    ensures v.texCoord.x == attrib.texcoords[2 * index.texcoordIndex]
    ensures v.texCoord.y + attrib.texcoords[2 * index.texcoordIndex + 1] == 1.0
  {
    var vi := index.vertexIndex;
    var ti := index.texcoordIndex;
    Vertex(Vec3(attrib.vertices[3 * vi], attrib.vertices[3 * vi + 1], attrib.vertices[3 * vi + 2]),
           White,
           Vec2(attrib.texcoords[2 * ti], 1.0 - attrib.texcoords[2 * ti + 1]))
  }

  /** Appending a shape appends its records. */
  lemma AllIndicesSnoc(shapes: seq<Shape>, s: nat)
    requires s < |shapes|
    ensures AllIndices(shapes[..s + 1]) == AllIndices(shapes[..s]) + shapes[s].indices
  {
    assert shapes[..s + 1][..s] == shapes[..s];
  }

  /** The flattening of concatenated shape lists is the concatenation of
      their flattenings. */
  lemma {:induction false} AllIndicesConcat(a: seq<Shape>, b: seq<Shape>)
    ensures AllIndices(a + b) == AllIndices(a) + AllIndices(b)
    decreases |b|
  {
    if b == [] {
      assert a + b == a;
    } else {
      assert (a + b)[..|a + b| - 1] == a + b[..|b| - 1];
      AllIndicesConcat(a, b[..|b| - 1]);
    }
  }

  /** The flattening holds as many records as all shapes together. */
  lemma {:induction false} AllIndicesCount(shapes: seq<Shape>)
    ensures |AllIndices(shapes)| == TotalIndexCount(shapes)
    decreases |shapes|
  {
    if shapes != [] {
      AllIndicesCount(shapes[1..]);
      AllIndicesConcat([shapes[0]], shapes[1..]);
      assert [shapes[0]] + shapes[1..] == shapes;
      assert AllIndices([shapes[0]]) == AllIndices([]) + shapes[0].indices;
    }
  }

  /** Record `i` of shape `s` sits in the flattening right after the records
      of the shapes before `s`: shapes are visited in order, and each
      shape's records in order. */
  lemma {:induction false} AllIndicesPosition(shapes: seq<Shape>, s: nat, i: nat)
    requires s < |shapes| && i < |shapes[s].indices|
    ensures |AllIndices(shapes[..s])| + i < |AllIndices(shapes)|
    ensures AllIndices(shapes)[|AllIndices(shapes[..s])| + i] == shapes[s].indices[i]
  {
    AllIndicesSnoc(shapes, s);
    AllIndicesConcat(shapes[..s + 1], shapes[s + 1..]);
    assert shapes[..s + 1] + shapes[s + 1..] == shapes;
  }

  /** Model::load. A failed parse throws with the warning followed by the
      error text. Otherwise every index record of every shape, in order,
      yields one vertex, and index k of the index buffer is k as a
      `uint32_t`. */
  method Load(parsed: bool, warn: string, error: string, attrib: Attributes, shapes: seq<Shape>)
    returns (r: Result<Mesh>)
    requires parsed ==> IndicesInRange(attrib, shapes)
    ensures r.Err? <==> !parsed
    ensures r.Err? ==> r.message == warn + error
    ensures r.Ok? ==>
      && |r.value.vertices| == |r.value.indices| == |AllIndices(shapes)| == TotalIndexCount(shapes)
      && (forall k :: 0 <= k < |r.value.indices| ==> r.value.indices[k] == ToU32(k))
      && (forall k :: 0 <= k < |r.value.vertices| ==>
            && RecordInRange(attrib, AllIndices(shapes)[k])
            && r.value.vertices[k] == VertexFor(attrib, AllIndices(shapes)[k]))
  {
    if !parsed {
      return Err(warn + error);
    }
    var vertices: seq<Vertex> := [];
    var indices: seq<U32> := [];
    var s := 0;
    while s < |shapes|
      invariant 0 <= s <= |shapes|
      invariant |vertices| == |indices| == |AllIndices(shapes[..s])|
      invariant forall k :: 0 <= k < |indices| ==> indices[k] == ToU32(k)
      invariant forall k :: 0 <= k < |vertices| ==>
        RecordInRange(attrib, AllIndices(shapes[..s])[k]) && vertices[k] == VertexFor(attrib, AllIndices(shapes[..s])[k])
    {
      ghost var done := AllIndices(shapes[..s]);
      var records := shapes[s].indices;
      var i := 0;
      while i < |records|
        invariant 0 <= i <= |records|
        invariant |vertices| == |indices| == |done| + i
        invariant forall k :: 0 <= k < |indices| ==> indices[k] == ToU32(k)
        invariant forall k :: 0 <= k < |vertices| ==>
          RecordInRange(attrib, (done + records)[k]) && vertices[k] == VertexFor(attrib, (done + records)[k])
      {
        assert RecordInRange(attrib, shapes[s].indices[i]);
        vertices := vertices + [VertexFor(attrib, records[i])];
        indices := indices + [ToU32(|indices|)];
        i := i + 1;
      }
      AllIndicesSnoc(shapes, s);
      s := s + 1;
    }
    assert shapes[..s] == shapes;
    AllIndicesCount(shapes);
    return Ok(Mesh(vertices, indices));
  }
}
