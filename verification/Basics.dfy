/** What several modules share: optional values, and facts about sets and slices. */
module Basics {

  datatype Option<T> = None | Some(value: T)

  function ToSet<T>(s: seq<T>): set<T> {
    set x | x in s
  }

  lemma SubsetSmaller<T>(a: set<T>, b: set<T>)
    requires a <= b
    ensures |a| <= |b|
  {
    assert b == a + (b - a);
  }

  lemma SliceOfSlice<T>(s: seq<T>, lo: nat, hi: nat, at: nat, n: nat)
    requires lo <= hi <= |s| && at + n <= hi - lo
    ensures s[lo..hi][at..at + n] == s[lo + at..lo + at + n]
  {
    var t := s[lo..hi];
    assert forall k :: at <= k < at + n ==> t[k] == s[lo + k];
    var u, v := t[at..at + n], s[lo + at..lo + at + n];
    assert forall k :: 0 <= k < n ==> u[k] == v[k];
    assert u == v;
  }
}
