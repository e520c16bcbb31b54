/**
 * Repository lookups over an in-memory table. A table is a sequence of rows
 * in insertion order; `findOne({ where })` returns the first row that matches.
 */
module Tables {
  import opened Wrappers

  /** The index of the first element satisfying `p`, or `None`. */
  function FindFirst<T>(s: seq<T>, p: T -> bool): (r: Option<nat>)
    ensures r.Some? ==> r.value < |s| && p(s[r.value])
    ensures r.Some? ==> forall j :: 0 <= j < r.value ==> !p(s[j])
    ensures r.None? <==> forall j :: 0 <= j < |s| ==> !p(s[j])
  {
    if |s| == 0 then None
    else if p(s[0]) then Some(0)
    else
      match FindFirst(s[1..], p)
      case None => None
      case Some(k) => Some(k + 1)
  }

  /** Two tables whose rows match position by position have their first match at the same index. */
  lemma {:induction false} FindFirstSamePattern<T, U>(s: seq<T>, p: T -> bool, t: seq<U>, q: U -> bool)
    requires |s| == |t|
    requires forall k :: 0 <= k < |s| ==> p(s[k]) == q(t[k])
    ensures FindFirst(s, p) == FindFirst(t, q)
  {
    if |s| > 0 {
      FindFirstSamePattern(s[1..], p, t[1..], q);
    }
  }

  /** The table without the row at index `i`, the others in the same order. */
  function RemoveAt<T>(s: seq<T>, i: nat): (r: seq<T>)
    requires i < |s|
    ensures |r| == |s| - 1
    ensures forall j :: 0 <= j < i ==> r[j] == s[j]
    ensures forall j :: i <= j < |r| ==> r[j] == s[j + 1]
  {
    s[..i] + s[i + 1..]
  }
}
