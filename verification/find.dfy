/** `Array.prototype.find`, reported as a position: the first element that
    satisfies a test, or the length of the sequence when none does. */
module Find {
  function FirstWhere<T>(s: seq<T>, p: T -> bool): (r: nat)
    ensures r <= |s|
    ensures r < |s| ==> p(s[r])
    ensures forall j :: 0 <= j < r ==> !p(s[j])
  {
    if |s| == 0 then 0
    else if p(s[0]) then 0
    else 1 + FirstWhere(s[1..], p)
  }

  /** Nothing is found exactly when no element passes the test. */
  lemma NotFound<T>(s: seq<T>, p: T -> bool)
    ensures FirstWhere(s, p) == |s| <==> forall j :: 0 <= j < |s| ==> !p(s[j])
  {
  }
}
