/** Searching sequences, and the sets of their elements. */
module Lists {

  /** The first index at which `ok` holds, or the length. */
  function FirstIndex<T>(s: seq<T>, ok: T -> bool): (i: nat)
    ensures i <= |s|
    ensures i < |s| ==> ok(s[i])
    ensures forall j :: 0 <= j < i ==> !ok(s[j])
  {
    if s == [] || ok(s[0]) then 0
    else
      var i := FirstIndex(s[1..], ok);
      assert forall j :: 1 <= j < i + 1 ==> s[j] == s[1..][j - 1];
      i + 1
  }

  /** ORDER BY key DESC, position DESC: the first element that satisfies `ok`, or -1. */
  function LatestBy<T>(s: seq<T>, ok: T -> bool, key: T -> nat): (r: int)
    ensures -1 <= r < |s|
    ensures r == -1 <==> forall i :: 0 <= i < |s| ==> !ok(s[i])
    ensures r >= 0 ==> ok(s[r])
    ensures r >= 0 ==> forall i :: 0 <= i < |s| && ok(s[i]) ==> key(s[i]) < key(s[r]) || (key(s[i]) == key(s[r]) && i <= r)
  {
    if s == [] then -1
    else
      var n := |s| - 1;
      var r := LatestBy(s[..n], ok, key);
      if ok(s[n]) && (r == -1 || key(s[n]) >= key(s[r])) then n else r
  }

  function Elements<T>(s: seq<T>): set<T> {
    set x | x in s
  }

  lemma SubsetCard<T>(a: set<T>, b: set<T>)
    requires a <= b
    ensures |a| <= |b| && (a != b ==> |a| < |b|)
  {
    assert b == a + (b - a);
  }
}
