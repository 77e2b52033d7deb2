/** Finite sets of numbers. */
module Sets {
  function Interval(lo: nat, hi: nat): (s: set<nat>)
    ensures forall x: nat :: x in s <==> lo <= x < hi
    ensures lo <= hi ==> |s| == hi - lo
    decreases hi - lo
  {
    if lo >= hi then {} else {lo} + Interval(lo + 1, hi)
  }

  function Elems(s: seq<nat>): set<nat> {
    set x | x in s
  }

  lemma {:induction false} Subset(x: set<nat>, y: set<nat>)
    requires x <= y
    ensures |x| <= |y| && (|x| == |y| ==> x == y)
  {
    assert |y - x| == |y| - |x|;
    assert |y - x| == 0 ==> y - x == {};
  }
}
