/** Small things that several components share. */
module Wrappers {

  datatype Option<T> = None | Some(value: T)

  /** All but the last element... */
  function Front<T>(s: seq<T>): (r: seq<T>)
    requires s != []
    ensures |r| == |s| - 1
  {
    s[..|s| - 1]
  }

  /** ...and the last one. */
  function Last<T>(s: seq<T>): T
    requires s != []
  {
    s[|s| - 1]
  }

  /** The first place of an element with a property, or -1. */
  function IndexWhere<T>(s: seq<T>, f: T -> bool): (i: int)
    ensures -1 <= i < |s|
    ensures i >= 0 ==> f(s[i])
    ensures forall j :: 0 <= j < |s| && f(s[j]) ==> 0 <= i <= j
  {
    if s == [] then -1
    else
      var i := IndexWhere(Front(s), f);
      if i >= 0 then i else if f(Last(s)) then |s| - 1 else -1
  }
}
