/** Facts about numbers and finite sets that several components share. */
module Numbers {

  /** JavaScript's largest integer below which every integer is exact. */
  const MAX_SAFE_INTEGER := 0x1f_ffff_ffff_ffff

  function Least(a: nat, b: nat): (r: nat)
    ensures r <= a && r <= b && (r == a || r == b)
  {
    if a <= b then a else b
  }

  lemma SubsetCount<T>(a: set<T>, b: set<T>)
    requires a <= b
    ensures |a| <= |b| && (|a| == |b| ==> a == b)
  {
    assert b == a + (b - a);
    if |a| == |b| {
      assert |b - a| == 0;
    }
  }
}
