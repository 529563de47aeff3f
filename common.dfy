/** Small shared vocabulary: optional values and facts about sequences. */
module Common {

  /** A value that may be absent (a sub-element the page did not have). */
  datatype Option<T> = None | Some(value: T)

  /** No element occurs twice in `s`. */
  predicate Distinct<T(==)>(s: seq<T>)
  {
    forall i, j :: 0 <= i < j < |s| ==> s[i] != s[j]
  }

  /** The set of the elements of `s` (Python's `set(list)`). */
  function Elements<T>(s: seq<T>): set<T>
  {
    set x | x in s
  }

  /** `idx` lists positions of a sequence of length `n`, strictly increasing. */
  predicate IncreasingIndices(idx: seq<nat>, n: nat)
  {
    && (forall k :: 0 <= k < |idx| ==> idx[k] < n)
    && (forall k, l :: 0 <= k < l < |idx| ==> idx[k] < idx[l])
  }

  /** One more element of a prefix. */
  lemma TakeSnoc<T>(s: seq<T>, i: nat)
    requires i < |s|
    ensures s[..i + 1] == s[..i] + [s[i]]
  {
  }
}
