/** Small definitions that several modules share. */
module Helpers {

  datatype Option<T> = None | Some(value: T)

  lemma SubsetDifference<T>(a: set<T>, b: set<T>)
    requires a <= b
    ensures |b - a| == |b| - |a|
  {
    assert a + (b - a) == b;
  }

  // ---- Go's int64: additions and products wrap, division truncates ----

  const MAX64 := 0x7FFF_FFFF_FFFF_FFFF
  const MIN64 := -0x8000_0000_0000_0000

  predicate Fits(x: int) { MIN64 <= x <= MAX64 }

  function Wrap(x: int): (r: int)
    ensures Fits(r) && (r == x <==> Fits(x))
    ensures x >= MIN64 ==> r <= x
  {
    (x - MIN64) % 0x1_0000_0000_0000_0000 + MIN64
  }

  function Quotient(a: int, b: int): int
    requires b > 0
  {
    if a >= 0 then a / b else -(-a / b)
  }

  lemma SubsetSize<T>(a: set<T>, b: set<T>)
    requires a <= b
    ensures |a| <= |b|
    ensures a != b ==> |a| < |b|
  {
    assert a + (b - a) == b;
    if a != b { assert b - a != {}; }
  }
}
