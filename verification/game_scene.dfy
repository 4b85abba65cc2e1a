/** The scene rebuild of `addLevelObjects` on the practice-game page
    (src/pages/CourseGame.tsx), reduced to the list of the scene's children. */
module GameScene {
  import opened CourseGame

  /** A child of the scene: one of the two lights, or the level's mesh. */
  datatype SceneObject = AmbientLight | DirectionalLight | Mesh(look: Appearance)

  predicate IsLight(o: SceneObject)
  {
    o.AmbientLight? || o.DirectionalLight?
  }

  /** The lights among `children`, in order. */
  function LightsOf(children: seq<SceneObject>): seq<SceneObject>
  {
    if |children| == 0 then []
    else (if IsLight(children[0]) then [children[0]] else []) + LightsOf(children[1..])
  }

  /** Helper: the lights of a concatenation. */
  lemma {:induction false} LightsOfAppend(a: seq<SceneObject>, b: seq<SceneObject>)
    ensures LightsOf(a + b) == LightsOf(a) + LightsOf(b)
  {
    if |a| > 0 {
      LightsOfAppend(a[1..], b);
      assert (a + b)[1..] == a[1..] + b;
    } else {
      assert a + b == b;
    }
  }

  /** One pass of the clearing loop as written: a light at the front is cloned
      (the clone is appended at the back) and the original removed from the
      front; any other object is removed. A clone is the same light again. */
  function ClearStep(children: seq<SceneObject>): (r: seq<SceneObject>)
    ensures |LightsOf(r)| == |LightsOf(children)|
    ensures |r| <= |children|
  {
    if |children| == 0 then children
    else if IsLight(children[0]) then
      LightsOfAppend(children[1..], [children[0]]);
      children[1..] + [children[0]]
    else children[1..]
  }

  /** The children after `n` passes of the loop body. */
  function ClearIterate(children: seq<SceneObject>, n: nat): seq<SceneObject>
    decreases n
  {
    if n == 0 then children else ClearIterate(ClearStep(children), n - 1)
  }

  /** As written, the loop runs while the scene has children. Once a light is
      among them, no number of passes ever empties the scene: each pass keeps
      every light, so the guard stays true forever. */
  lemma {:induction false} ClearLoopNeverExits(children: seq<SceneObject>, n: nat)
    requires LightsOf(children) != []
    ensures |LightsOf(ClearIterate(children, n))| == |LightsOf(children)|
    ensures |ClearIterate(children, n)| > 0
    decreases n
  {
    if n > 0 {
      ClearLoopNeverExits(ClearStep(children), n - 1);
    }
  }

  /** The page calls `addLevelObjects` on a scene that already holds the ambient
      and the directional light, so the clearing loop never ends. */
  lemma PageSceneNeverCleared(n: nat)
    ensures |ClearIterate([AmbientLight, DirectionalLight], n)| > 0
  {
    ClearLoopNeverExits([AmbientLight, DirectionalLight], n);
  }

  /** Running the unchanged loop body exactly once per original child leaves the
      children not yet visited followed by the clones of the visited lights. */
  lemma {:induction false} ClearStepsPrefix(children: seq<SceneObject>, k: nat)
    requires k <= |children|
    ensures ClearIterate(children, k) == children[k..] + LightsOf(children[..k])
    decreases k
  {
    if k > 0 {
      var next := if IsLight(children[0]) then children[1..] + [children[0]] else children[1..];
      assert ClearStep(children) == next;
      ClearStepsPrefix(next, k - 1);
      assert next[..k - 1] == children[1..k];
      assert children[..k] == [children[0]] + children[1..k];
      if IsLight(children[0]) {
        assert next[k - 1..] == children[k..] + [children[0]];
      } else {
        assert next[k - 1..] == children[k..];
      }
    } else {
      assert children[..0] == [];
    }
  }

  /** Bounded by the number of original children, the loop keeps exactly the
      lights, in order, and ends. */
  lemma ClearOncePerChildKeepsLights(children: seq<SceneObject>)
    ensures ClearIterate(children, |children|) == LightsOf(children)
  {
    ClearStepsPrefix(children, |children|);
    assert children[|children|..] == [] && children[..|children|] == children;
  }

  /** The scene whose children `addLevelObjects` rebuilds. */
  class Scene {
    var children: seq<SceneObject>

    constructor (initial: seq<SceneObject>)
      ensures children == initial
    {
      children := initial;
    }

    /** The clearing loop with the evidently intended bound: the same body,
        run once for each child present when the loop starts. */
    method ClearKeepingLights()
      modifies this
      ensures children == LightsOf(old(children))
    {
      ghost var start := children;
      var count := |children|;
      for i := 0 to count
        invariant children == start[i..] + LightsOf(start[..i])
      {
        ghost var visited := LightsOf(start[..i]);
        assert start[i..] == [start[i]] + start[i + 1..];
        assert children[1..] == start[i + 1..] + visited;
        assert LightsOf([start[i]]) == if IsLight(start[i]) then [start[i]] else [];
        var first := children[0];
        if IsLight(first) {
          children := children + [first];
          children := children[1..];
        } else {
          children := children[1..];
        }
        assert children == start[i + 1..] + (visited + LightsOf([start[i]]));
        assert start[..i + 1] == start[..i] + [start[i]];
        LightsOfAppend(start[..i], [start[i]]);
      }
      assert start[count..] == [] && start[..count] == start;
    }

    /** `addLevelObjects(scene, level)` with the bounded clearing loop: keep the
        lights, add an ambient and a directional light, then the level's mesh. */
    method AddLevelObjects(level: int)
      modifies this
      ensures children == LightsOf(old(children)) +
                          [AmbientLight, DirectionalLight, Mesh(LevelAppearance(level))]
    {
      ClearKeepingLights();
      children := children + [AmbientLight];
      children := children + [DirectionalLight];
      children := children + [Mesh(LevelAppearance(level))];
    }
  }
}
