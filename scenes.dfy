/**
 * The scene list handed to every player build: the paths of the scenes
 * that are enabled in the editor's build settings, in their listed order.
 */
module Scenes {

  /** One entry of the editor's build-settings scene list. */
  datatype Scene = Scene(enabled: bool, path: string)

  /** The paths of the enabled scenes, in their listed order. */
  function EnabledPaths(scenes: seq<Scene>): (paths: seq<string>)
    ensures |paths| <= |scenes|
  {
    if scenes == [] then []
    else
      var rest := EnabledPaths(scenes[1..]);
      if scenes[0].enabled then [scenes[0].path] + rest else rest
  }

  /** A path is handed to the build exactly when some enabled scene has it. */
  lemma {:induction false} EnabledPathsMembers(scenes: seq<Scene>, p: string)
    ensures p in EnabledPaths(scenes) <==> exists i :: 0 <= i < |scenes| && scenes[i].enabled && scenes[i].path == p
  {
    if scenes != [] {
      EnabledPathsMembers(scenes[1..], p);
      assert forall i :: 0 < i < |scenes| ==> scenes[i] == scenes[1..][i - 1];
    }
  }

  /** Filtering distributes over concatenation of scene lists. */
  lemma {:induction false} EnabledPathsAppend(a: seq<Scene>, b: seq<Scene>)
    ensures EnabledPaths(a + b) == EnabledPaths(a) + EnabledPaths(b)
  {
    if a == [] {
      assert a + b == b;
    } else {
      assert (a + b)[1..] == a[1..] + b;
      EnabledPathsAppend(a[1..], b);
    }
  }

  /** The positions of the enabled scenes, in increasing order. */
  function EnabledIndices(scenes: seq<Scene>): (idx: seq<nat>)
    ensures forall k :: 0 <= k < |idx| ==> idx[k] < |scenes| && scenes[idx[k]].enabled
    ensures forall k, l :: 0 <= k < l < |idx| ==> idx[k] < idx[l]
    ensures forall i :: 0 <= i < |scenes| && scenes[i].enabled ==> i in idx
  {
    if scenes == [] then []
    else
      var n := |scenes| - 1;
      var front := EnabledIndices(scenes[..n]);
      if scenes[n].enabled then front + [n] else front
  }

  /**
   * The scenes of a build are exactly the enabled ones, in their order: the
   * k-th path is the path of the k-th enabled scene.
   */
  lemma {:induction false} EnabledPathsInOrder(scenes: seq<Scene>)
    ensures |EnabledPaths(scenes)| == |EnabledIndices(scenes)|
    ensures forall k :: 0 <= k < |EnabledIndices(scenes)| ==>
      EnabledPaths(scenes)[k] == scenes[EnabledIndices(scenes)[k]].path
  {
    if scenes != [] {
      var n := |scenes| - 1;
      var front := scenes[..n];
      EnabledPathsInOrder(front);
      assert scenes == front + [scenes[n]];
      EnabledPathsAppend(front, [scenes[n]]);
      assert [scenes[n]][1..] == [];
      var last := if scenes[n].enabled then [scenes[n].path] else [];
      assert EnabledPaths([scenes[n]]) == last;
      assert EnabledPaths(scenes) == EnabledPaths(front) + last;
      assert EnabledIndices(scenes) == EnabledIndices(front) + (if scenes[n].enabled then [n] else []);
      forall k | 0 <= k < |EnabledIndices(front)|
        ensures EnabledPaths(scenes)[k] == scenes[EnabledIndices(scenes)[k]].path
      {
        assert EnabledPaths(scenes)[k] == EnabledPaths(front)[k];
        assert scenes[EnabledIndices(front)[k]] == front[EnabledIndices(front)[k]];
      }
    }
  }

  /** With every scene enabled, the build gets every scene, in order. */
  lemma {:induction false} AllEnabledPaths(scenes: seq<Scene>)
    requires forall i :: 0 <= i < |scenes| ==> scenes[i].enabled
    ensures EnabledPaths(scenes) == seq(|scenes|, i requires 0 <= i < |scenes| => scenes[i].path)
  {
    if scenes != [] {
      AllEnabledPaths(scenes[1..]);
    }
  }
}
