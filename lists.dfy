/** Sequence helpers standing for the Python list operations the route builder uses. */
module Lists {

  /** `s.insert(j, x)` on a Python list, for an index within bounds. */
  function InsertAt<T>(s: seq<T>, j: nat, x: T): (r: seq<T>)
    requires j <= |s|
    ensures |r| == |s| + 1 && r[j] == x
    ensures forall k {:trigger r[k]} :: 0 <= k < j ==> r[k] == s[k]
    ensures forall k {:trigger r[k]} :: j < k < |r| ==> r[k] == s[k - 1]
    ensures multiset(r) == multiset(s) + multiset{x}
  {
    assert s == s[..j] + s[j..];
    s[..j] + [x] + s[j..]
  }

  /** The pairs of two parallel lists. */
  function Zip<A, B>(a: seq<A>, b: seq<B>): (r: seq<(A, B)>)
    requires |a| == |b|
    ensures |r| == |a|
    ensures forall k {:trigger r[k]} :: 0 <= k < |a| ==> r[k] == (a[k], b[k])
  {
    seq(|a|, k requires 0 <= k < |a| => (a[k], b[k]))
  }

  /** Inserting into two parallel lists at the same index inserts one pair into their zip. */
  lemma ZipInsertAt<A, B>(a: seq<A>, b: seq<B>, j: nat, x: A, y: B)
    requires |a| == |b| && j <= |a|
    ensures Zip(InsertAt(a, j, x), InsertAt(b, j, y)) == InsertAt(Zip(a, b), j, (x, y))
  {
  }

  /** Appending to two parallel lists appends one pair to their zip. */
  lemma ZipAppend<A, B>(a: seq<A>, b: seq<B>, x: A, y: B)
    requires |a| == |b|
    ensures Zip(a + [x], b + [y]) == Zip(a, b) + [(x, y)]
  {
  }

  function Elements<T>(s: seq<T>): set<T> {
    set x | x in s
  }

  predicate Distinct<T(==)>(s: seq<T>) {
    forall k, l :: 0 <= k < l < |s| ==> s[k] != s[l]
  }
}
