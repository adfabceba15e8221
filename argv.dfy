/** Argument vectors as the shell keeps them: fixed arrays of string pointers
    in which a NULL entry ends the vector. A NULL entry is `None` here. */
module Argv {
  import opened Wrappers

  /** Longest input line, in characters (shell.c:8). */
  const INPUT_SIZE := 500
  /** Number of slots in the token array (shell.c:9). */
  const NUM_TOKENS := 50

  /** Reading the slots `a` from index `at` as a `char **` gives the words
      `words` followed by the NULL that ends them. */
  ghost predicate HoldsArgv(a: seq<Option<string>>, at: nat, words: seq<string>)
  {
    && at + |words| < |a|
    && (forall k :: 0 <= k < |words| ==> a[at + k] == Some(words[k]))
    && a[at + |words|] == None
  }

  /** A vector found one slot further on after dropping the first slot. */
  lemma HoldsShift(a: seq<Option<string>>, at: nat, words: seq<string>)
    requires |a| > 0 && HoldsArgv(a[1..], at, words)
    ensures HoldsArgv(a, at + 1, words)
  {
    forall k | 0 <= k < |words|
      ensures a[at + 1 + k] == Some(words[k])
    {
      assert a[1..][at + k] == Some(words[k]);
    }
    assert a[1..][at + |words|] == None;
  }

  /** A word in front of a vector that starts one slot on. */
  lemma HoldsCons(a: seq<Option<string>>, w: string, words: seq<string>)
    requires |a| > 0 && a[0] == Some(w) && HoldsArgv(a[1..], 0, words)
    ensures HoldsArgv(a, 0, [w] + words)
  {
    HoldsShift(a, 0, words);
  }
}
