/** The optional value used for absent JSON keys, Python's None results and unset tokens. */
module Wrappers {

  datatype Option<+T> = None | Some(value: T) {

    /** The value, or `default` when there is none (Python's `dict.get(key, default)`). */
    function GetOr(default: T): T {
      match this
      case Some(v) => v
      case None => default
    }
  }

  /** The values present in `xs`, in order: the list a loop builds by appending every
      result that is not None. */
  function Somes<T>(xs: seq<Option<T>>): (r: seq<T>)
    ensures |r| <= |xs|
    ensures forall v :: v in r ==> Some(v) in xs
    decreases |xs|
  {
    if xs == [] then []
    else Somes(xs[..|xs| - 1]) + (if xs[|xs| - 1].Some? then [xs[|xs| - 1].value] else [])
  }

  ghost predicate IsFirstSome<T>(xs: seq<Option<T>>, k: int) {
    0 <= k < |xs| && xs[k].Some? && forall j :: 0 <= j < k ==> xs[j].None?
  }

  /** Nothing is collected exactly when every entry is None. */
  lemma {:induction false} SomesEmptyIff<T>(xs: seq<Option<T>>)
    ensures Somes(xs) == [] <==> forall i :: 0 <= i < |xs| ==> xs[i].None?
    decreases |xs|
  {
    if xs != [] {
      var pre := xs[..|xs| - 1];
      SomesEmptyIff(pre);
      assert forall i :: 0 <= i < |pre| ==> pre[i] == xs[i];
    }
  }

  /** The first value collected is that of the first entry that is not None. */
  lemma {:induction false} SomesHead<T>(xs: seq<Option<T>>)
    requires Somes(xs) != []
    ensures exists k :: IsFirstSome(xs, k) && Somes(xs)[0] == xs[k].value
    decreases |xs|
  {
    var pre := xs[..|xs| - 1];
    assert forall i :: 0 <= i < |pre| ==> pre[i] == xs[i];
    if Somes(pre) != [] {
      SomesHead(pre);
      var k :| IsFirstSome(pre, k) && Somes(pre)[0] == pre[k].value;
      assert IsFirstSome(xs, k);
    } else {
      SomesEmptyIff(pre);
      assert IsFirstSome(xs, |xs| - 1);
    }
  }
}
