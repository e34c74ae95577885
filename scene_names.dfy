/**
 * Scene-name matching for OnSceneLoaded: the lower-cased name must contain
 * "dance". Lower-casing is modelled for the ASCII letters A to Z.
 */
module SceneNames {
  function LowerChar(c: char): char
  {
    if 'A' <= c <= 'Z' then (c as int - 'A' as int + 'a' as int) as char else c
  }

  /** The string with every upper-case ASCII letter replaced by its lower-case form. */
  function ToLower(s: string): (r: string)
    ensures |r| == |s|
    ensures forall i :: 0 <= i < |s| ==> r[i] == LowerChar(s[i])
  {
    if s == [] then [] else [LowerChar(s[0])] + ToLower(s[1..])
  }

  ghost predicate OccursAt(s: string, pattern: string, i: int)
  {
    0 <= i && i + |pattern| <= |s| && s[i..i + |pattern|] == pattern
  }

  /** Ordinal substring search. */
  function Contains(s: string, pattern: string): (found: bool)
    ensures found <==> exists i :: OccursAt(s, pattern, i)
    decreases |s|
  {
    if |s| < |pattern| then false
    else if s[..|pattern|] == pattern then
      assert OccursAt(s, pattern, 0);
      true
    else
      var rest := Contains(s[1..], pattern);
      assert forall i :: OccursAt(s[1..], pattern, i) <==> OccursAt(s, pattern, i + 1) by {
        forall i ensures OccursAt(s[1..], pattern, i) <==> OccursAt(s, pattern, i + 1) {
          if 0 <= i && i + |pattern| <= |s[1..]| {
            assert s[1..][i..i + |pattern|] == s[i + 1..i + 1 + |pattern|];
          }
        }
      }
      assert !OccursAt(s, pattern, 0);
      assert (exists i :: OccursAt(s, pattern, i)) ==> exists i :: OccursAt(s[1..], pattern, i) by {
        if exists i :: OccursAt(s, pattern, i) {
          var i :| OccursAt(s, pattern, i);
          assert OccursAt(s[1..], pattern, i - 1);
        }
      }
      rest
  }

  /** A dance scene is one whose name spells "dance", in any case, somewhere. */
  predicate IsDanceScene(sceneName: string): (dance: bool)
    ensures dance <==> exists i :: DanceAt(sceneName, i)
  {
    LowerContainsDanceIff(sceneName);
    Contains(ToLower(sceneName), "dance")
  }

  /** The five characters at i spell "dance" in some mix of upper and lower case. */
  ghost predicate DanceAt(sceneName: string, i: int)
  {
    0 <= i && i + 5 <= |sceneName| && ToLower(sceneName[i..i + 5]) == "dance"
  }

  /** The lower-cased name contains "dance" iff the name spells it in some case at some position. */
  lemma LowerContainsDanceIff(sceneName: string)
    ensures Contains(ToLower(sceneName), "dance") <==> exists i :: DanceAt(sceneName, i)
  {
    var lower := ToLower(sceneName);
    forall i | 0 <= i && i + 5 <= |sceneName|
      ensures OccursAt(lower, "dance", i) <==> DanceAt(sceneName, i)
    {
      assert lower[i..i + 5] == ToLower(sceneName[i..i + 5]);
    }
    if Contains(lower, "dance") {
      var i :| OccursAt(lower, "dance", i);
      assert DanceAt(sceneName, i);
    }
    if exists i :: DanceAt(sceneName, i) {
      var i :| DanceAt(sceneName, i);
      assert OccursAt(lower, "dance", i);
    }
  }
}
