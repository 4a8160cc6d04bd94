/** Splitting one shader file into its per-stage GLSL sources. The file is a
    sequence of lines; a line containing "#type" switches the stage being
    collected and every other line is appended, with a newline, to the
    source of the current stage. */
module ShaderSource {
  import opened Common

  /** ShaderModuleTypes; the enumerator's value is the slot index it writes to. */
  datatype Stage = Vertex | Pixel

  /** One entry of the two-element vector of (stage tag, text) pairs. Both
      entries start out as (Vertex, ""). */
  datatype Slot = Slot(tag: Stage, text: string)

  /** The splitter's state: the current stage and the two slots, slot 0
      written while the stage is Vertex, slot 1 while it is Pixel. */
  datatype Splitter = Splitter(current: Stage, vertexSlot: Slot, pixelSlot: Slot)

  predicate IsMarker(line: string)
  {
    Contains(line, "#type")
  }

  /** The stage a marker line selects: "vertex" is checked before "pixel",
      and a marker naming neither keeps the current stage. */
  function Select(line: string, current: Stage): Stage
  {
    if Contains(line, "vertex") then Vertex
    else if Contains(line, "pixel") then Pixel
    else current
  }

  function Start(): Splitter
  {
    Splitter(Vertex, Slot(Vertex, ""), Slot(Vertex, ""))
  }

  /** One iteration of the getline loop. */
  function Step(st: Splitter, line: string): Splitter
  {
    if IsMarker(line) then st.(current := Select(line, st.current))
    else if st.current == Vertex then st.(vertexSlot := Slot(Vertex, st.vertexSlot.text + line + "\n"))
    else st.(pixelSlot := Slot(Pixel, st.pixelSlot.text + line + "\n"))
  }

  /** The splitter after the first n lines. */
  function Run(lines: seq<string>, n: nat): Splitter
    requires n <= |lines|
  {
    if n == 0 then Start() else Step(Run(lines, n - 1), lines[n - 1])
  }

  // ---------------------------------------------------------------------
  // Reference reading of a shader file, line by line.

  /** The stage in force at line k: the one named by the last marker before
      k that names a stage, Vertex when there is none. */
  function StageBefore(lines: seq<string>, k: nat): Stage
    requires k <= |lines|
  {
    if k == 0 then Vertex
    else if IsMarker(lines[k - 1]) && Contains(lines[k - 1], "vertex") then Vertex
    else if IsMarker(lines[k - 1]) && Contains(lines[k - 1], "pixel") then Pixel
    else StageBefore(lines, k - 1)
  }

  /** Line k is source text belonging to stage s. */
  predicate WrittenAt(lines: seq<string>, k: nat, s: Stage)
    requires k < |lines|
  {
    !IsMarker(lines[k]) && StageBefore(lines, k) == s
  }

  /** Some line among the first n is source text of stage s. */
  predicate Writes(lines: seq<string>, n: nat, s: Stage)
    requires n <= |lines|
  {
    exists k: nat :: k < n && WrittenAt(lines, k, s)
  }

  /** The lines of stage s among the first n, each followed by a newline. */
  function Collect(lines: seq<string>, n: nat, s: Stage): string
    requires n <= |lines|
  {
    if n == 0 then ""
    else Collect(lines, n - 1, s) + (if WrittenAt(lines, n - 1, s) then lines[n - 1] + "\n" else "")
  }

  /** A stage without lines has an empty source. */
  lemma {:induction false} CollectWithoutWrites(lines: seq<string>, n: nat, s: Stage)
    requires n <= |lines|
    ensures Collect(lines, n, s) == "" <==> !Writes(lines, n, s)
  {
    if n > 0 {
      CollectWithoutWrites(lines, n - 1, s);
      if WrittenAt(lines, n - 1, s) {
        assert Writes(lines, n, s);
      } else if Writes(lines, n, s) {
        var k: nat :| k < n && WrittenAt(lines, k, s);
        assert Writes(lines, n - 1, s);
      }
    }
  }

  /** The splitter agrees with the reference reading: the current stage is
      the last one a marker named, slot 0 holds the vertex lines under the
      Vertex tag, and slot 1 holds the pixel lines and carries the Pixel tag
      exactly when there is at least one pixel line. */
  lemma {:induction false} RunMatchesReference(lines: seq<string>, n: nat)
    requires n <= |lines|
    ensures Run(lines, n).current == StageBefore(lines, n)
    ensures Run(lines, n).vertexSlot == Slot(Vertex, Collect(lines, n, Vertex))
    ensures Run(lines, n).pixelSlot
         == Slot(if Writes(lines, n, Pixel) then Pixel else Vertex, Collect(lines, n, Pixel))
  {
    if n > 0 {
      RunMatchesReference(lines, n - 1);
      var line := lines[n - 1];
      if WrittenAt(lines, n - 1, Pixel) {
        assert Writes(lines, n, Pixel);
      } else {
        assert Writes(lines, n, Pixel) ==> Writes(lines, n - 1, Pixel) by {
          if Writes(lines, n, Pixel) {
            var k: nat :| k < n && WrittenAt(lines, k, Pixel);
            assert k < n - 1;
          }
        }
        assert Writes(lines, n - 1, Pixel) ==> Writes(lines, n, Pixel);
      }
    }
  }

  /** Shader::ParseShaders on a file already read into lines: both slots are
      stored into the source map in slot order, so slot 1 (tagged Vertex
      when the file has no pixel lines) is written last. */
  function ParseShaders(prior: map<Stage, string>, lines: seq<string>): (m: map<Stage, string>)
    ensures Vertex in m
    ensures Pixel in m <==> Pixel in prior || Writes(lines, |lines|, Pixel)
    ensures Writes(lines, |lines|, Pixel) ==>
              m[Vertex] == Collect(lines, |lines|, Vertex) && m[Pixel] == Collect(lines, |lines|, Pixel)
    ensures !Writes(lines, |lines|, Pixel) ==>
              m[Vertex] == "" && (Pixel in prior ==> m[Pixel] == prior[Pixel])
  {
    RunMatchesReference(lines, |lines|);
    CollectWithoutWrites(lines, |lines|, Pixel);
    var st := Run(lines, |lines|);
    prior[st.vertexSlot.tag := st.vertexSlot.text][st.pixelSlot.tag := st.pixelSlot.text]
  }

  /** A vertex-only file loses its vertex source: the untouched slot 1 is
      stored under the Vertex key after slot 0 and overwrites it with "". */
  lemma VertexOnlyFileLosesSource()
    ensures var lines := ["#type vertex", "void main() {}"];
            Collect(lines, |lines|, Vertex) == "void main() {}\n"
            && ParseShaders(map[], lines) == map[Vertex := ""]
  {
    var lines := ["#type vertex", "void main() {}"];
    assert OccursAt(lines[0], "#type", 0);
    assert OccursAt(lines[0], "vertex", 6);
    assert !Contains(lines[1], "#type") by {
      forall i: nat | i <= |lines[1]| ensures !OccursAt(lines[1], "#type", i) {
        if i + 5 <= |lines[1]| {
          assert lines[1][i..i + 5][0] == lines[1][i];
        }
      }
    }
    assert !Writes(lines, 2, Pixel) by {
      assert !WrittenAt(lines, 0, Pixel);
      assert StageBefore(lines, 1) == Vertex;
      assert !WrittenAt(lines, 1, Pixel);
    }
    assert Collect(lines, 2, Vertex) == "void main() {}\n" by {
      assert !WrittenAt(lines, 0, Vertex);
      assert WrittenAt(lines, 1, Vertex);
    }
  }

  /** ParseShaders with each slot stored only when some line was written to
      it, so every stage present in the file keeps exactly its own lines. */
  function ParseShadersCorrected(prior: map<Stage, string>, lines: seq<string>): (m: map<Stage, string>)
    ensures forall s: Stage :: s in m <==> s in prior || Writes(lines, |lines|, s)
    ensures forall s: Stage :: Writes(lines, |lines|, s) ==> m[s] == Collect(lines, |lines|, s)
    ensures forall s: Stage :: !Writes(lines, |lines|, s) && s in prior ==> m[s] == prior[s]
  {
    var n := |lines|;
    var withVertex := if Writes(lines, n, Vertex) then prior[Vertex := Collect(lines, n, Vertex)] else prior;
    if Writes(lines, n, Pixel) then withVertex[Pixel := Collect(lines, n, Pixel)] else withVertex
  }
}
