/** What it means that one list holds some of the elements of another. */
module Selections {
  /** The elements of all at the places idx, in their order: nothing moved, nothing twice. */
  ghost predicate PickedAt<T>(all: seq<T>, idx: seq<nat>, part: seq<T>) {
    && |idx| == |part|
    && (forall j :: 0 <= j < |idx| ==> idx[j] < |all| && part[j] == all[idx[j]])
    && forall j, k :: 0 <= j < k < |idx| ==> idx[j] < idx[k]
  }

  /** The elements that are to be kept, in their order and number, and no others. */
  ghost predicate Keeps<T(!new)>(all: seq<T>, keep: T -> bool, part: seq<T>) {
    exists idx: seq<nat> :: PickedAt(all, idx, part) && forall i: nat :: i < |all| ==> (i in idx <==> keep(all[i]))
  }

  lemma KeepsNone<T(!new)>(keep: T -> bool)
    ensures Keeps([], keep, [])
  {
    assert PickedAt<T>([], [], []);
  }

  lemma KeepsNext<T(!new)>(all: seq<T>, keep: T -> bool, part: seq<T>, x: T)
    requires Keeps(all, keep, part)
    ensures Keeps(all + [x], keep, part + if keep(x) then [x] else [])
  {
    var idx: seq<nat> :| PickedAt(all, idx, part) && forall i: nat :: i < |all| ==> (i in idx <==> keep(all[i]));
    var more := idx + if keep(x) then [|all|] else [];
    assert PickedAt(all + [x], more, part + if keep(x) then [x] else []);
    forall i: nat | i <= |all|
      ensures i in more <==> keep((all + [x])[i])
    {
      assert |all| !in idx;
    }
  }
}
