/** What is said of sequences and maps in several modules. */
module Collections {
  /** No element stands twice. */
  ghost predicate Distinct<T>(s: seq<T>) {
    forall i, j :: 0 <= i < j < |s| ==> s[i] != s[j]
  }

  /** Every value of the key type is a key. */
  ghost predicate Full<K(!new), T>(m: map<K, T>) {
    forall k: K :: k in m
  }
}
