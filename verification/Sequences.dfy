module Sequences {
  /** No string stands twice in the list. */
  predicate NoRepeats(s: seq<string>) { forall i, j :: 0 <= i < j < |s| ==> s[i] != s[j] }
}
