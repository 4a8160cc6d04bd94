/** Model: the meshes of a scene loaded through Assimp, collected from its
    node tree and turned into triangle lists and index lists. The importer
    is a parameter: the scene it returns, or None for a null scene. */
module Model {
  import opened Common

  datatype Vec3 = Vec3(x: real, y: real, z: real)

  const ZERO3: Vec3 := Vec3(0.0, 0.0, 0.0)

  /** Mesh.h's Vertex; CreateMesh only sets the position. */
  datatype Vertex = Vertex(position: Vec3, normal: Vec3, tangent: Vec3, binormal: Vec3, texCoordU: real, texCoordV: real)

  const ZERO_VERTEX: Vertex := Vertex(ZERO3, ZERO3, ZERO3, ZERO3, 0.0, 0.0)

  /** The vertex CreateMesh builds from an imported position. */
  function VertexAt(p: Vec3): (v: Vertex)
    ensures v.position == p && v.normal == ZERO3 && v.texCoordU == 0.0 && v.texCoordV == 0.0
  {
    ZERO_VERTEX.(position := p)
  }

  datatype Triangle = Triangle(a: Vertex, b: Vertex, c: Vertex)

  /** The mesh CreateMesh returns: its triangles and its indices. */
  datatype Mesh = Mesh(triangles: seq<Triangle>, indices: seq<nat>)

  /** aiFace and aiMesh: the indices of a face, and a mesh's positions and faces. */
  datatype Face = Face(indices: seq<nat>)

  datatype ImportedMesh = ImportedMesh(vertices: seq<Vec3>, faces: seq<Face>)

  /** aiNode: the scene's meshes this node references, and its children. */
  datatype Node = Node(meshes: seq<nat>, children: seq<Node>)

  /** aiScene: its flags, its root node (None for a null pointer) and its meshes. */
  datatype Scene = Scene(flags: bv32, root: Option<Node>, meshes: seq<ImportedMesh>)

  /** AI_SCENE_FLAGS_INCOMPLETE */
  const AI_SCENE_FLAGS_INCOMPLETE: bv32 := 0x1

  // ---------------------------------------------------------------------
  // Triangles

  /** The k-th consecutive group of three positions as a triangle. */
  function TriangleAt(vs: seq<Vec3>, k: nat): (t: Triangle)
    requires 3 * k + 2 < |vs|
    ensures t.a.position == vs[3 * k] && t.b.position == vs[3 * k + 1] && t.c.position == vs[3 * k + 2]
  {
    Triangle(VertexAt(vs[3 * k]), VertexAt(vs[3 * k + 1]), VertexAt(vs[3 * k + 2]))
  }

  /** Every complete group of three positions, in order: what a triangulated
      vertex list describes. */
  function Triangles(vs: seq<Vec3>): (ts: seq<Triangle>)
    ensures |ts| == |vs| / 3
    ensures forall k :: 0 <= k < |ts| ==> ts[k] == TriangleAt(vs, k)
  {
    seq(|vs| / 3, k requires 0 <= k < |vs| / 3 => TriangleAt(vs, k))
  }

  /** How many triangles the loop of CreateMesh pushes: a triangle is
      pushed at the start of the iteration after its third vertex, so the
      last one, with no iteration after it, never is. */
  function TrianglesPushed(n: nat): (count: nat)
  {
    if n == 0 then 0 else (n - 1) / 3
  }

  /** It loses exactly one triangle, the last, and exactly when the vertex
      count is a positive multiple of three. */
  lemma TrianglesPushedLosesLast(n: nat)
    ensures TrianglesPushed(n) == n / 3 - (if n > 0 && n % 3 == 0 then 1 else 0)
  {
  }

  /** A one-triangle mesh comes out with no triangles. */
  lemma OneTriangleMeshIsEmpty(p: Vec3, q: Vec3, r: Vec3)
    ensures TrianglesPushed(|[p, q, r]|) == 0 && |Triangles([p, q, r])| == 1
  {
  }

  /** The indices of all faces, face after face. */
  function Flatten(faces: seq<Face>): (indices: seq<nat>)
  {
    if |faces| == 0 then [] else Flatten(faces[..|faces| - 1]) + faces[|faces| - 1].indices
  }

  function Sum(xs: seq<nat>): (total: nat)
  {
    if |xs| == 0 then 0 else Sum(xs[..|xs| - 1]) + xs[|xs| - 1]
  }

  /** The number of indices of each face. */
  function FaceSizes(faces: seq<Face>): (sizes: seq<nat>)
    ensures |sizes| == |faces|
  {
    seq(|faces|, i requires 0 <= i < |faces| => |faces[i].indices|)
  }

  /** The index list is as long as all faces together. */
  lemma {:induction false} FlattenLength(faces: seq<Face>)
    ensures |Flatten(faces)| == Sum(FaceSizes(faces))
    decreases |faces|
  {
    if |faces| > 0 {
      FlattenLength(faces[..|faces| - 1]);
      assert FaceSizes(faces)[..|faces| - 1] == FaceSizes(faces[..|faces| - 1]);
    }
  }

  /** After aiProcess_Triangulate every face has three indices, so the index
      list holds three per face. */
  lemma {:induction false} TriangulatedIndexCount(faces: seq<Face>)
    requires forall i :: 0 <= i < |faces| ==> |faces[i].indices| == 3
    ensures |Flatten(faces)| == 3 * |faces|
    decreases |faces|
  {
    if |faces| > 0 {
      TriangulatedIndexCount(faces[..|faces| - 1]);
    }
  }

  /** Appends the indices of every face, in order. */
  method FlattenFaces(faces: seq<Face>) returns (indices: seq<nat>)
    ensures indices == Flatten(faces)
  {
    indices := [];
    for i := 0 to |faces|
      invariant indices == Flatten(faces[..i])
    {
      var face := faces[i];
      for j := 0 to |face.indices|
        invariant indices == Flatten(faces[..i]) + face.indices[..j]
      {
        indices := indices + [face.indices[j]];
      }
      assert faces[..i + 1][..i] == faces[..i];
    }
    assert faces[..|faces|] == faces;
  }

  /** Model::CreateMesh as written: the positions go three at a time into a
      triangle that is pushed when the next vertex arrives, so the triangles
      are the complete groups of three except the last one when the count
      is a multiple of three; then the face indices in order. */
  method CreateMesh(mesh: ImportedMesh) returns (result: Mesh)
    ensures |result.triangles| == TrianglesPushed(|mesh.vertices|)
    ensures result.triangles == Triangles(mesh.vertices)[..TrianglesPushed(|mesh.vertices|)]
    ensures result.indices == Flatten(mesh.faces)
  {
    var vs := mesh.vertices;
    var triangles: seq<Triangle> := [];
    var mult3 := 0;
    var triangle: seq<Vertex> := [ZERO_VERTEX, ZERO_VERTEX, ZERO_VERTEX];
    for i := 0 to |vs|
      invariant |triangle| == 3
      invariant i == 0 ==> mult3 == 0
      invariant i > 0 ==> mult3 == (i - 1) % 3 + 1
      invariant |triangles| == TrianglesPushed(i)
      invariant forall k :: 0 <= k < |triangles| ==> 3 * k + 2 < |vs| && triangles[k] == TriangleAt(vs, k)
      invariant forall j :: 0 <= j < mult3 ==> triangle[j] == VertexAt(vs[i - mult3 + j])
    {
      if mult3 == 3 {
        mult3 := 0;
        triangles := triangles + [Triangle(triangle[0], triangle[1], triangle[2])];
      }
      triangle := triangle[mult3 := VertexAt(vs[i])];
      mult3 := mult3 + 1;
    }
    var indices := FlattenFaces(mesh.faces);
    result := Mesh(triangles, indices);
  }

  /** CreateMesh with the triangle pushed as soon as its third vertex is in:
      every complete group of three positions becomes a triangle. */
  method CreateMeshCorrected(mesh: ImportedMesh) returns (result: Mesh)
    ensures result.triangles == Triangles(mesh.vertices)
    ensures result.indices == Flatten(mesh.faces)
  {
    var vs := mesh.vertices;
    var triangles: seq<Triangle> := [];
    var mult3 := 0;
    var triangle: seq<Vertex> := [ZERO_VERTEX, ZERO_VERTEX, ZERO_VERTEX];
    for i := 0 to |vs|
      invariant |triangle| == 3
      invariant mult3 == i % 3
      invariant |triangles| == i / 3
      invariant forall k :: 0 <= k < |triangles| ==> 3 * k + 2 < |vs| && triangles[k] == TriangleAt(vs, k)
      invariant forall j :: 0 <= j < mult3 ==> triangle[j] == VertexAt(vs[i - mult3 + j])
    {
      triangle := triangle[mult3 := VertexAt(vs[i])];
      mult3 := mult3 + 1;
      if mult3 == 3 {
        mult3 := 0;
        triangles := triangles + [Triangle(triangle[0], triangle[1], triangle[2])];
      }
    }
    var indices := FlattenFaces(mesh.faces);
    result := Mesh(triangles, indices);
  }

  // ---------------------------------------------------------------------
  // Node traversal

  function Concat(xss: seq<seq<nat>>): (xs: seq<nat>)
  {
    if |xss| == 0 then [] else Concat(xss[..|xss| - 1]) + xss[|xss| - 1]
  }

  lemma {:induction false} ConcatContains(xss: seq<seq<nat>>, x: nat)
    ensures x in Concat(xss) <==> exists i :: 0 <= i < |xss| && x in xss[i]
    decreases |xss|
  {
    if |xss| > 0 {
      var init := xss[..|xss| - 1];
      ConcatContains(init, x);
      if x in Concat(xss) && x !in xss[|xss| - 1] {
        var i :| 0 <= i < |init| && x in init[i];
        assert x in xss[i];
      }
      if exists i :: 0 <= i < |xss| && x in xss[i] {
        var i :| 0 <= i < |xss| && x in xss[i];
        if i < |init| {
          assert x in init[i];
        }
      }
    }
  }

  /** The scene meshes a node's subtree references, in the order
      ProcessNode visits them: the node's own, then each child's subtree in
      turn. */
  function PreOrder(n: Node): (refs: seq<nat>)
    decreases n
  {
    n.meshes + Concat(ChildRefs(n))
  }

  function ChildRefs(n: Node): (xss: seq<seq<nat>>)
    ensures |xss| == |n.children|
    decreases n, 0
  {
    seq(|n.children|, i requires 0 <= i < |n.children| => PreOrder(n.children[i]))
  }

  /** A node's own meshes come first. */
  lemma PreOrderStartsWithOwnMeshes(n: Node)
    ensures PreOrder(n)[..|n.meshes|] == n.meshes
  {
  }

  /** A mesh is visited under a node exactly when the node or one of its
      children's subtrees references it. */
  lemma PreOrderVisitsEveryReference(n: Node, x: nat)
    ensures x in PreOrder(n) <==> x in n.meshes || exists i :: 0 <= i < |n.children| && x in PreOrder(n.children[i])
  {
    ConcatContains(ChildRefs(n), x);
    if exists i :: 0 <= i < |n.children| && x in PreOrder(n.children[i]) {
      var i :| 0 <= i < |n.children| && x in PreOrder(n.children[i]);
      assert x in ChildRefs(n)[i];
    }
  }

  /** mNumMeshes summed over the node and all its descendants. */
  function MeshCount(n: Node): (count: nat)
    decreases n
  {
    |n.meshes| + Sum(seq(|n.children|, i requires 0 <= i < |n.children| => MeshCount(n.children[i])))
  }

  function Lengths(xss: seq<seq<nat>>): (ls: seq<nat>)
    ensures |ls| == |xss|
  {
    seq(|xss|, i requires 0 <= i < |xss| => |xss[i]|)
  }

  lemma {:induction false} ConcatLength(xss: seq<seq<nat>>)
    ensures |Concat(xss)| == Sum(Lengths(xss))
    decreases |xss|
  {
    if |xss| > 0 {
      ConcatLength(xss[..|xss| - 1]);
      assert Lengths(xss)[..|xss| - 1] == Lengths(xss[..|xss| - 1]);
    }
  }

  /** ProcessNode collects one mesh for every mesh reference of every node
      in the tree. */
  lemma {:induction false} PreOrderLength(n: Node)
    ensures |PreOrder(n)| == MeshCount(n)
    decreases n
  {
    forall i | 0 <= i < |n.children| ensures |PreOrder(n.children[i])| == MeshCount(n.children[i]) {
      PreOrderLength(n.children[i]);
    }
    ConcatLength(ChildRefs(n));
    assert Lengths(ChildRefs(n)) == seq(|n.children|, i requires 0 <= i < |n.children| => MeshCount(n.children[i]));
  }

  /** Every reference in the list names one of the scene's meshCount meshes. */
  predicate RefsIn(refs: seq<nat>, meshCount: nat)
  {
    forall x :: x in refs ==> x < meshCount
  }

  /** Assimp's promise that a node references only meshes the scene has. */
  predicate RefsValid(n: Node, meshCount: nat)
  {
    RefsIn(PreOrder(n), meshCount)
  }

  lemma ChildRefsValid(n: Node, meshCount: nat, i: nat)
    requires RefsValid(n, meshCount) && i < |n.children|
    ensures RefsValid(n.children[i], meshCount)
  {
    forall x | x in PreOrder(n.children[i]) ensures x < meshCount {
      PreOrderVisitsEveryReference(n, x);
    }
  }

  /** The references of the node itself and of its first i children are
      all valid. */
  lemma PartialRefsValid(n: Node, meshCount: nat, i: nat)
    requires RefsValid(n, meshCount) && i <= |n.children|
    ensures RefsIn(n.meshes + Concat(ChildRefs(n)[..i]), meshCount)
  {
    forall x | x in n.meshes + Concat(ChildRefs(n)[..i]) ensures x < meshCount {
      if x !in n.meshes {
        ConcatContains(ChildRefs(n)[..i], x);
        var j :| 0 <= j < i && x in ChildRefs(n)[..i][j];
        ConcatContains(ChildRefs(n), x);
        assert x in ChildRefs(n)[j];
        assert x in Concat(ChildRefs(n));
        assert x in PreOrder(n);
      } else {
        assert x in PreOrder(n);
      }
    }
  }

  /** The meshes CreateMesh produces from a list of scene references. */
  function MeshesOf(scene: Scene, refs: seq<nat>): (ms: seq<Mesh>)
    requires RefsIn(refs, |scene.meshes|)
    ensures |ms| == |refs|
  {
    seq(|refs|, k requires 0 <= k < |refs| =>
      assert refs[k] in refs;
      var m := scene.meshes[refs[k]];
      Mesh(Triangles(m.vertices)[..TrianglesPushed(|m.vertices|)], Flatten(m.faces)))
  }

  /** Building meshes from two lists of references one after the other is
      building them from the joined list. */
  lemma MeshesOfAppend(scene: Scene, a: seq<nat>, b: seq<nat>)
    requires RefsIn(a + b, |scene.meshes|)
    ensures RefsIn(a, |scene.meshes|) && RefsIn(b, |scene.meshes|)
    ensures MeshesOf(scene, a + b) == MeshesOf(scene, a) + MeshesOf(scene, b)
  {
    forall x | x in a ensures x < |scene.meshes| {
      assert x in a + b;
    }
    forall x | x in b ensures x < |scene.meshes| {
      assert x in a + b;
    }
    var l := MeshesOf(scene, a + b);
    var r := MeshesOf(scene, a) + MeshesOf(scene, b);
    forall k | 0 <= k < |l| ensures l[k] == r[k] {
      if k < |a| {
        assert (a + b)[k] == a[k];
      } else {
        assert (a + b)[k] == b[k - |a|];
      }
    }
  }

  /** The references ProcessNode has visited once the node's own meshes and
      its first i children are done. */
  function VisitedAfter(node: Node, i: nat): seq<nat>
    requires i <= |node.children|
  {
    node.meshes + Concat(ChildRefs(node)[..i])
  }

  /** One turn of the child loop: the next child's references are valid and
      its meshes follow the ones visited so far. */
  lemma ChildStep(node: Node, scene: Scene, i: nat)
    requires RefsValid(node, |scene.meshes|) && i < |node.children|
    ensures RefsValid(node.children[i], |scene.meshes|)
    ensures RefsIn(VisitedAfter(node, i + 1), |scene.meshes|)
    ensures RefsIn(VisitedAfter(node, i), |scene.meshes|)
    ensures MeshesOf(scene, VisitedAfter(node, i + 1))
         == MeshesOf(scene, VisitedAfter(node, i)) + MeshesOf(scene, PreOrder(node.children[i]))
  {
    var refs := ChildRefs(node);
    ChildRefsValid(node, |scene.meshes|, i);
    PartialRefsValid(node, |scene.meshes|, i + 1);
    assert refs[..i + 1] == refs[..i] + [refs[i]];
    assert refs[..i + 1][..i] == refs[..i];
    assert VisitedAfter(node, i) + refs[i] == VisitedAfter(node, i + 1);
    MeshesOfAppend(scene, VisitedAfter(node, i), refs[i]);
  }

  /** The loop over a node's own mesh references: one mesh per reference,
      appended in order. */
  method AppendMeshes(scene: Scene, refs: seq<nat>, meshes: seq<Mesh>) returns (out: seq<Mesh>)
    requires RefsIn(refs, |scene.meshes|)
    ensures out == meshes + MeshesOf(scene, refs)
  {
    out := meshes;
    for i := 0 to |refs|
      invariant RefsIn(refs[..i], |scene.meshes|)
      invariant out == meshes + MeshesOf(scene, refs[..i])
    {
      assert refs[i] in refs;
      var mesh := CreateMesh(scene.meshes[refs[i]]);
      assert refs[..i + 1] == refs[..i] + [refs[i]];
      MeshesOfAppend(scene, refs[..i], [refs[i]]);
      out := out + [mesh];
    }
    assert refs[..|refs|] == refs;
  }

  /** Model::ProcessNode: appends the mesh of every reference in the node's
      subtree, in pre-order. */
  method ProcessNode(node: Node, scene: Scene, meshes: seq<Mesh>) returns (out: seq<Mesh>)
    requires RefsValid(node, |scene.meshes|)
    ensures out == meshes + MeshesOf(scene, PreOrder(node))
    decreases node
  {
    PartialRefsValid(node, |scene.meshes|, 0);
    assert VisitedAfter(node, 0) == node.meshes;
    out := AppendMeshes(scene, node.meshes, meshes);
    for i := 0 to |node.children|
      invariant RefsIn(VisitedAfter(node, i), |scene.meshes|)
      invariant out == meshes + MeshesOf(scene, VisitedAfter(node, i))
    {
      ChildStep(node, scene, i);
      out := ProcessNode(node.children[i], scene, out);
      assert out == meshes + (MeshesOf(scene, VisitedAfter(node, i)) + MeshesOf(scene, PreOrder(node.children[i])));
    }
    assert ChildRefs(node)[..|node.children|] == ChildRefs(node);
  }

  /** Model(filepath): None when the importer returned no scene, an
      incomplete one or one without a root (the logged ASSERT and early
      return); otherwise the meshes of the whole tree in pre-order. */
  method LoadModel(scene: Option<Scene>) returns (meshes: Option<seq<Mesh>>)
    requires scene.Some? && scene.value.root.Some? ==> RefsValid(scene.value.root.value, |scene.value.meshes|)
    ensures meshes.None? <==>
              scene.None? || scene.value.flags & AI_SCENE_FLAGS_INCOMPLETE != 0 || scene.value.root.None?
    ensures meshes.Some? ==> meshes.value == MeshesOf(scene.value, PreOrder(scene.value.root.value))
  {
    if scene.None? || scene.value.flags & AI_SCENE_FLAGS_INCOMPLETE != 0 || scene.value.root.None? {
      return None;
    }
    var collected := ProcessNode(scene.value.root.value, scene.value, []);
    meshes := Some(collected);
  }
}
