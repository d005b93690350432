/**
 * The wheel mesh: 360 one-degree triangles, each with three vertices of its
 * own, coloured with the table entry of its degree. Vertex positions are
 * kept symbolic: the centre, or the rim point at a whole degree.
 */
module RouletteGenerator {
  import opened Colors
  import opened Angles

  datatype Option<T> = None | Some(value: T)

  /** A vertex of the disc: its centre or the rim point at `degree` degrees. */
  datatype Vertex = Centre | Rim(degree: int)

  datatype Mesh = Mesh(vertices: seq<Vertex>, triangles: seq<int>, colors: seq<Color>)

  /** Slots in each mesh array: three per degree. */
  const Slots := 3 * Turn

  /** The colour of each triangle, read from its first vertex. */
  function TriangleColors(m: Mesh): (t: seq<Color>)
    requires |m.colors| == Slots
    ensures |t| == Turn
  {
    seq(Turn, i requires 0 <= i < Turn => m.colors[3 * i])
  }

  /** Slot `k` belongs to triangle `k / 3`: its centre, then its start and end rim points. */
  function SlotVertex(k: nat): (v: Vertex)
    ensures k % 3 == 0 <==> v == Centre
    ensures k % 3 != 0 ==> v.degree == k / 3 + k % 3 - 1
  {
    if k % 3 == 0 then Centre else if k % 3 == 1 then Rim(k / 3) else Rim(k / 3 + 1)
  }

  /**
   * Builds the mesh for a colour table. A table that does not have exactly
   * 360 entries logs an error and yields no mesh. Otherwise slot `k` of each
   * array belongs to degree `k / 3`: its triangle index is `k` and its colour
   * is that degree's table entry, so the triangle colours give the table back.
   */
  method CreateRouletteMesh(colors: seq<Color>) returns (m: Option<Mesh>)
    ensures m.None? <==> |colors| != Turn
    ensures m.Some? ==> |m.value.vertices| == Slots && |m.value.triangles| == Slots && |m.value.colors| == Slots
    ensures m.Some? ==> forall k :: 0 <= k < Slots ==> m.value.triangles[k] == k
    ensures m.Some? ==> forall k :: 0 <= k < Slots ==> m.value.colors[k] == colors[k / 3]
    ensures m.Some? ==> forall k :: 0 <= k < Slots ==> m.value.vertices[k] == SlotVertex(k)
    ensures m.Some? ==> TriangleColors(m.value) == colors
  {
    if |colors| != Turn {
      return None;
    }
    var mesh := LayOutSlots(colors);
    assert forall j :: 0 <= j < Turn ==> TriangleColors(mesh)[j] == mesh.colors[3 * j];
    assert forall j :: 0 <= j < Turn ==> (3 * j) / 3 == j;
    return Some(mesh);
  }

  /** The loop over degrees that fills three slots of every array per degree. */
  method LayOutSlots(colors: seq<Color>) returns (mesh: Mesh)
    requires |colors| == Turn
    ensures |mesh.vertices| == Slots && |mesh.triangles| == Slots && |mesh.colors| == Slots
    ensures forall k :: 0 <= k < Slots ==> mesh.triangles[k] == k
    ensures forall k :: 0 <= k < Slots ==> mesh.colors[k] == colors[k / 3]
    ensures forall k :: 0 <= k < Slots ==> mesh.vertices[k] == SlotVertex(k)
  {
    var vertices: seq<Vertex> := [];
    var triangles: seq<int> := [];
    var vertexColors: seq<Color> := [];
    var i := 0;
    while i < Turn
      invariant 0 <= i <= Turn
      invariant |vertices| == |triangles| == |vertexColors| == 3 * i
      invariant forall k :: 0 <= k < 3 * i ==> triangles[k] == k
      invariant forall k :: 0 <= k < 3 * i ==> vertexColors[k] == colors[k / 3]
      invariant forall k :: 0 <= k < 3 * i ==> vertices[k] == SlotVertex(k)
    {
      var base := i * 3;
      SlotsOfDegree(i);
      vertices := vertices + [Centre, Rim(i), Rim(i + 1)];
      vertexColors := vertexColors + [colors[i], colors[i], colors[i]];
      triangles := triangles + [base, base + 1, base + 2];
      i := i + 1;
    }
    mesh := Mesh(vertices, triangles, vertexColors);
  }

  /** The three slots of degree `i` are `3 i`, `3 i + 1` and `3 i + 2`. */
  lemma SlotsOfDegree(i: nat)
    ensures (3 * i) / 3 == i && (3 * i + 1) / 3 == i && (3 * i + 2) / 3 == i
    ensures (3 * i) % 3 == 0 && (3 * i + 1) % 3 == 1 && (3 * i + 2) % 3 == 2
  {
  }

  /** The first vertex of every triangle is the disc centre. */
  lemma {:induction false} TrianglesMeetAtCentre(i: nat)
    requires i < Turn
    ensures SlotVertex(3 * i) == Centre
    ensures SlotVertex(3 * i + 1) == Rim(i) && SlotVertex(3 * i + 2) == Rim(i + 1)
  {
  }
}
