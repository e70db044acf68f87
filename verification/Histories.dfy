/** The last element of a history that satisfies a condition. */
module Histories {
  import opened Model

  function LastWhere<T>(h: seq<T>, p: T -> bool): Option<T> {
    if h == [] then None
    else if p(h[|h| - 1]) then Some(h[|h| - 1])
    else LastWhere(h[..|h| - 1], p)
  }

  lemma LastWhereNext<T>(h: seq<T>, x: T, p: T -> bool)
    ensures LastWhere(h + [x], p) == if p(x) then Some(x) else LastWhere(h, p)
  {
    assert (h + [x])[..|h|] == h;
  }

  lemma LastWhereOne<T>(x: T, p: T -> bool)
    ensures LastWhere([x], p) == if p(x) then Some(x) else None
  {
    assert [x][..0] == [];
  }

  /** The history splits behind its last element that satisfies the condition, if any. */
  lemma {:induction false} LastWhereIsTheLast<T>(h: seq<T>, p: T -> bool) returns (i: nat)
    ensures i <= |h| && forall j :: i <= j < |h| ==> !p(h[j])
    ensures i > 0 ==> p(h[i - 1])
    ensures LastWhere(h, p) == if i == 0 then None else Some(h[i - 1])
  {
    i := |h|;
    if h != [] && !p(h[|h| - 1]) {
      i := LastWhereIsTheLast(h[..|h| - 1], p);
    }
  }
}
