/** Sequences without repetition, and removal by position. */
module Sequences {

  ghost predicate NoRepeat<T>(s: seq<T>) {
    forall i, j :: 0 <= i < j < |s| ==> s[i] != s[j]
  }

  lemma JoinNoRepeat<T>(a: seq<T>, b: seq<T>)
    requires NoRepeat(a) && NoRepeat(b) && forall x :: x in b ==> x !in a
    ensures NoRepeat(a + b)
  {
    forall i, j | 0 <= i < j < |a + b| ensures (a + b)[i] != (a + b)[j] {
      if i < |a| <= j {
        assert a[i] in a && b[j - |a|] in b;
      }
    }
  }

  function RemoveAt<T>(s: seq<T>, k: nat): seq<T>
    requires k < |s|
  {
    s[..k] + s[k + 1..]
  }

  lemma RemoveAtButLast<T>(s: seq<T>, k: nat)
    requires k + 1 < |s|
    ensures RemoveAt(s, k) == RemoveAt(s[..|s| - 1], k) + [s[|s| - 1]]
  {
    assert s[k + 1..] == s[..|s| - 1][k + 1..] + [s[|s| - 1]];
  }
}
