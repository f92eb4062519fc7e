/**
 * The few JavaScript array operations the board relies on, over sequences:
 * `findIndex` (and `find`, which the model expresses through the index it
 * would return) and `splice(k, 1)`.
 */
module JsArray {

  /**
   * `s.findIndex(p)`: the first index whose element satisfies `p`, or -1 when
   * no element does.
   */
  function FindIndex<T>(s: seq<T>, p: T -> bool): (r: int)
    ensures -1 <= r < |s|
    ensures 0 <= r ==> p(s[r])
    ensures forall j :: 0 <= j < |s| && (r == -1 || j < r) ==> !p(s[j])
  {
    if s == [] then -1
    else if p(s[0]) then 0
    else
      var r' := FindIndex(s[1..], p);
      if r' == -1 then -1 else r' + 1
  }

  /**
   * What `s.splice(k, 1)` leaves in `s`: the element at `k` is gone and every
   * other element keeps its relative order.
   */
  function RemoveAt<T>(s: seq<T>, k: nat): (r: seq<T>)
    requires k < |s|
    ensures |r| == |s| - 1
    ensures forall j :: 0 <= j < k ==> r[j] == s[j]
    ensures forall j :: k <= j < |r| ==> r[j] == s[j + 1]
    ensures multiset(r) + multiset{s[k]} == multiset(s)
  {
    assert s == s[..k] + [s[k]] + s[k + 1..];
    s[..k] + s[k + 1..]
  }
}
