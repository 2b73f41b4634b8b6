/** The default path selector (src/utils/paths.ts): a client's `paths`
    object, as a map from key to path, and the fixed key priority. */
module Paths {
  import opened Wrappers

  const Blocks: string := "BLOCKS"
  const CurrentRegistryPath: string := "CURRENT_REGISTRY_PATH"
  const NewYorkV4Path: string := "NEW_YORK_V4_PATH"

  /** The order in which `getDefaultPath` tries the keys. */
  const PathPriority: seq<string> := [Blocks, CurrentRegistryPath, NewYorkV4Path]

  /** `getDefaultPath`; `None` is `undefined`. */
  function GetDefaultPath(paths: map<string, string>): (r: Option<string>)
    ensures Blocks in paths ==> r == Some(paths[Blocks])
    ensures Blocks !in paths && CurrentRegistryPath in paths ==> r == Some(paths[CurrentRegistryPath])
    ensures Blocks !in paths && CurrentRegistryPath !in paths && NewYorkV4Path in paths ==> r == Some(paths[NewYorkV4Path])
    ensures r.None? <==> forall k :: k in PathPriority ==> k !in paths
    ensures r.Some? ==> exists k :: k in PathPriority && k in paths && r.value == paths[k]
  {
    if Blocks in paths then Some(paths[Blocks])
    else if CurrentRegistryPath in paths then Some(paths[CurrentRegistryPath])
    else if NewYorkV4Path in paths then Some(paths[NewYorkV4Path])
    else None
  }

  /** A reference definition: the value of the first of `keys` present in `paths`. */
  function FirstPresent(keys: seq<string>, paths: map<string, string>): Option<string>
    decreases |keys|
  {
    if |keys| == 0 then None
    else if keys[0] in paths then Some(paths[keys[0]])
    else FirstPresent(keys[1..], paths)
  }

  /** `getDefaultPath` is the first-present rule over `PathPriority`. */
  lemma DefaultPathIsFirstPresent(paths: map<string, string>)
    ensures GetDefaultPath(paths) == FirstPresent(PathPriority, paths)
  {
    var tail := [CurrentRegistryPath, NewYorkV4Path];
    assert PathPriority[1..] == tail;
    assert tail[1..] == [NewYorkV4Path];
    assert [NewYorkV4Path][1..] == [];
    assert FirstPresent([NewYorkV4Path], paths) == if NewYorkV4Path in paths then Some(paths[NewYorkV4Path]) else None;
    assert FirstPresent(tail, paths) == if CurrentRegistryPath in paths then Some(paths[CurrentRegistryPath]) else FirstPresent([NewYorkV4Path], paths);
  }

  /** Two maps that agree on `keys` (same presence, same values) pick the same path. */
  ghost predicate AgreeOn(keys: seq<string>, m1: map<string, string>, m2: map<string, string>) {
    forall i :: 0 <= i < |keys| ==>
      (keys[i] in m1 <==> keys[i] in m2) && (keys[i] in m1 ==> m1[keys[i]] == m2[keys[i]])
  }

  lemma {:induction false} FirstPresentDependsOnKeysOnly(keys: seq<string>, m1: map<string, string>, m2: map<string, string>)
    requires AgreeOn(keys, m1, m2)
    ensures FirstPresent(keys, m1) == FirstPresent(keys, m2)
    decreases |keys|
  {
    if |keys| > 0 {
      assert keys[0] in m1 <==> keys[0] in m2;
      if keys[0] !in m1 {
        assert AgreeOn(keys[1..], m1, m2) by {
          forall i | 0 <= i < |keys[1..]|
            ensures (keys[1..][i] in m1 <==> keys[1..][i] in m2)
            ensures keys[1..][i] in m1 ==> m1[keys[1..][i]] == m2[keys[1..][i]]
          {
            assert keys[1..][i] == keys[i + 1];
          }
        }
        FirstPresentDependsOnKeysOnly(keys[1..], m1, m2);
      }
    }
  }

  /** Keys other than the three known names never affect the result:
      adding, changing or removing them leaves it as it was. */
  lemma UnknownKeysIrrelevant(paths: map<string, string>, k: string, v: string)
    requires k !in PathPriority
    ensures GetDefaultPath(paths[k := v]) == GetDefaultPath(paths)
    ensures GetDefaultPath(paths - {k}) == GetDefaultPath(paths)
  {
    DefaultPathIsFirstPresent(paths);
    DefaultPathIsFirstPresent(paths[k := v]);
    DefaultPathIsFirstPresent(paths - {k});
    FirstPresentDependsOnKeysOnly(PathPriority, paths[k := v], paths);
    FirstPresentDependsOnKeysOnly(PathPriority, paths - {k}, paths);
  }

  lemma PathExamples()
    ensures GetDefaultPath(map[Blocks := "a", NewYorkV4Path := "b"]) == Some("a")
    ensures GetDefaultPath(map[]) == None
  {
  }
}
