/**
 * The hidden love-mode trigger: every typed number token is appended to a buffer, and an effect
 * that runs after each change turns love mode on when the buffer reads "1314" and empties the
 * buffer once it holds four or more characters.
 */
module SecretCode {

  /** The code that turns love mode on. */
  const Code: string := "1314"

  /** The buffer length at which the effect empties it. */
  const GroupSize: nat := 4

  /** Whether the effect turns love mode on for this buffer. */
  predicate Fires(buffer: string)
  {
    buffer == Code
  }

  /** The buffer the effect leaves behind: one of four or more characters is emptied. */
  function Settle(buffer: string): (r: string)
    ensures |r| < GroupSize
    ensures r == buffer <==> |buffer| < GroupSize
    ensures r != buffer ==> r == ""
  {
    if |buffer| >= GroupSize then "" else buffer
  }

  /** The buffer after typing `keys` one character at a time, starting from an empty buffer. */
  function Typed(keys: string): string
    decreases |keys|
  {
    if keys == [] then "" else Settle(Typed(keys[..|keys| - 1]) + [keys[|keys| - 1]])
  }

  /** The buffer takes typed characters in groups of four: it holds the unfinished last group. */
  lemma TypedGroupsInFours(keys: string)
    ensures Typed(keys) == keys[|keys| - |keys| % 4..]
  {
    TypedAfterGroups(keys, |keys| / 4, |keys| % 4);
  }

  /** `keys` is `groups` full groups followed by `rest` more characters. */
  lemma {:induction false} TypedAfterGroups(keys: string, groups: nat, rest: nat)
    requires rest < 4 && |keys| == 4 * groups + rest
    ensures Typed(keys) == keys[4 * groups..]
    decreases |keys|
  {
    if keys != [] {
      var n := |keys|;
      var prev, last := keys[..n - 1], keys[n - 1];
      var start := if rest > 0 then 4 * groups else 4 * groups - 4;
      if rest > 0 {
        TypedAfterGroups(prev, groups, rest - 1);
      } else {
        TypedAfterGroups(prev, groups - 1, 3);
      }
      TypedStep(prev, last, start);
      assert prev + [last] == keys;
      assert prev[start..] + [last] == keys[start..];
    }
  }

  /** One more character: the buffer grows by it, and is emptied when that completes a group. */
  lemma TypedStep(prev: string, last: char, start: nat)
    requires start <= |prev| && |prev| - start < 4 && Typed(prev) == prev[start..]
    ensures Typed(prev + [last]) == if |prev| - start == 3 then [] else prev[start..] + [last]
  {
    var keys := prev + [last];
    assert keys[..|keys| - 1] == prev;
  }

  /**
   * Typing the `k`-th character (from 0) turns love mode on exactly when it completes a group of
   * four and that group reads "1314": typing "21314" does not fire, because its groups are
   * "2131" and "4".
   */
  lemma FiresOnAlignedCode(keys: string, k: nat)
    requires k < |keys|
    ensures Fires(Typed(keys[..k]) + [keys[k]])
        <==> k % GroupSize == GroupSize - 1 && keys[k + 1 - GroupSize..k + 1] == Code
  {
    TypedGroupsInFours(keys[..k]);
    assert keys[..k][k - k % GroupSize..] + [keys[k]] == keys[k - k % GroupSize..k + 1];
  }

  /** A concrete case of the grouping: typing "1314" fires, typing "21314" never does. */
  lemma GroupingExamples()
    ensures Fires(Typed("131") + "4")
    ensures forall k :: 0 <= k < 5 ==> !Fires(Typed("21314"[..k]) + ["21314"[k]])
  {
    FiresOnAlignedCode("1314", 3);
    assert "1314"[..3] == "131";
    forall k | 0 <= k < 5 ensures !Fires(Typed("21314"[..k]) + ["21314"[k]]) {
      FiresOnAlignedCode("21314", k);
    }
  }
}
