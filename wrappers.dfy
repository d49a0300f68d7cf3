/** The optional value used for nullable database fields, and a lookup
    shared by the proofs about reordered lists. */
module Wrappers {

  datatype Option<+T> = None | Some(value: T)

  /** A value occurring in a sequence sits at some index of it. */
  lemma IndexOf<T>(v: T, s: seq<T>) returns (j: nat)
    requires v in multiset(s)
    ensures j < |s| && s[j] == v
  {
    j :| 0 <= j < |s| && s[j] == v;
  }
}
