/** Facts about sequences and strings shared by the server modules. */
module Seqs {

  /** No element occurs twice. */
  predicate Distinct<T(==)>(s: seq<T>) {
    forall i, j | 0 <= i < j < |s| :: s[i] != s[j]
  }

  /** `t` occurs in `s` as a contiguous piece (String.contains). */
  predicate IsSubstring(t: string, s: string) {
    exists i | 0 <= i <= |s| - |t| :: OccursAt(t, s, i)
  }

  predicate OccursAt(t: string, s: string, i: int) {
    0 <= i <= |s| - |t| && s[i..i + |t|] == t
  }

  lemma SubstringOfConcat(a: string, t: string, b: string)
    ensures IsSubstring(t, a + t + b)
  {
    var s := a + t + b;
    assert OccursAt(t, s, |a|);
  }

  lemma SubstringTransitive(x: string, y: string, z: string)
    requires IsSubstring(x, y) && IsSubstring(y, z)
    ensures IsSubstring(x, z)
  {
    var i :| 0 <= i <= |y| - |x| && OccursAt(x, y, i);
    var j :| 0 <= j <= |z| - |y| && OccursAt(y, z, j);
    forall k | 0 <= k < |x| ensures z[j + i + k] == x[k] {
      assert x[k] == y[i..i + |x|][k] == y[i + k];
      assert y[i + k] == z[j..j + |y|][i + k] == z[j + i + k];
    }
    assert z[j + i..j + i + |x|] == x;
    assert OccursAt(x, z, j + i);
  }

  lemma PrefixIsSubstring(t: string, b: string)
    ensures IsSubstring(t, t + b)
  {
    assert (t + b)[0..|t|] == t;
    assert OccursAt(t, t + b, 0);
  }

  lemma SuffixIsSubstring(a: string, t: string)
    ensures IsSubstring(t, a + t)
  {
    assert (a + t)[|a|..|a| + |t|] == t;
    assert OccursAt(t, a + t, |a|);
  }
}
